/** The stand-alone Huawei application: the router HR1 as the one configured device, the SNMP
    parameter filter written as a dict comprehension, neighbour discovery through HR1 that keeps
    the `ssh_ip` of its device list unique, and the outcomes of the device information endpoint.
    SNMP queries are an input: the rows of the walk and the reply of the information fetch. */
module HuaweiApp {
  import opened Common
  import NeInit

  // ---------------------------------------------------------------------------------------------
  // filter_snmp_params as a comprehension over the dict's items

  /** A dict's items in iteration order (insertion order in Python). */
  type Items = seq<(string, Value)>

  predicate StartsWith(s: string, prefix: string) {
    |prefix| <= |s| && s[..|prefix|] == prefix
  }

  /** Python's `s.replace('snmp_', '')`: every occurrence, scanning left to right. */
  function StripSnmp(s: string): (r: string)
    ensures |r| <= |s|
    decreases |s|
  {
    if |s| == 0 then ""
    else if StartsWith(s, "snmp_") then StripSnmp(s[5..])
    else [s[0]] + StripSnmp(s[1..])
  }

  /** An item the comprehension keeps: an `snmp_` key whose stripped name is an SNMP parameter. */
  predicate Selected(key: string) {
    StartsWith(key, "snmp_") && StripSnmp(key) in NeInit.SnmpAllowedKeys
  }

  /** The comprehension: each kept item under its stripped name, a later item winning. */
  function SnmpParams(items: Items): Record
    decreases |items|
  {
    if |items| == 0 then map[]
    else
      var last := items[|items| - 1];
      var r := SnmpParams(items[..|items| - 1]);
      if Selected(last.0) then r[StripSnmp(last.0) := last.1] else r
  }

  /** A name is in the result exactly when some kept item strips to it; every name is an SNMP
      parameter. */
  lemma {:induction false} SnmpParamsKeys(items: Items, k: string)
    ensures k in SnmpParams(items) <==> exists i :: 0 <= i < |items| && Selected(items[i].0) && StripSnmp(items[i].0) == k
    ensures k in SnmpParams(items) ==> k in NeInit.SnmpAllowedKeys
    decreases |items|
  {
    if |items| > 0 {
      var init := items[..|items| - 1];
      SnmpParamsKeys(init, k);
      assert forall i :: 0 <= i < |init| ==> init[i] == items[i];
    }
  }

  /** The last kept item under a name decides its value. */
  lemma {:induction false} SnmpParamsLastWins(items: Items, i: int)
    requires 0 <= i < |items| && Selected(items[i].0)
    requires forall j :: i < j < |items| && Selected(items[j].0) ==> StripSnmp(items[j].0) != StripSnmp(items[i].0)
    ensures StripSnmp(items[i].0) in SnmpParams(items) && SnmpParams(items)[StripSnmp(items[i].0)] == items[i].1
    decreases |items|
  {
    if i < |items| - 1 {
      var init := items[..|items| - 1];
      assert forall j :: i < j < |init| ==> init[j] == items[j];
      SnmpParamsLastWins(init, i);
    }
  }

  /** An item without the `snmp_` prefix, a bare `ip` included, changes nothing. */
  lemma BareItemIgnored(items: Items, key: string, v: Value)
    requires !StartsWith(key, "snmp_")
    ensures SnmpParams(items + [(key, v)]) == SnmpParams(items)
  {
    assert (items + [(key, v)])[..|items|] == items;
  }

  /** Unlike the loop filter of ne_init.py, the comprehension ignores a bare parameter. */
  lemma ComprehensionDiffersFromLoop(v: Value)
    ensures SnmpParams([("ip", v)]) == map[]
    ensures NeInit.Filtered(map["ip" := v], NeInit.SnmpAllowedKeys, "snmp_") == map["ip" := v]
  {
    assert !StartsWith("ip", "snmp_");
    assert SnmpParams([("ip", v)]) == SnmpParams([]);
    var f := NeInit.Filtered(map["ip" := v], NeInit.SnmpAllowedKeys, "snmp_");
    assert "ip" in f;
    assert f.Keys == {"ip"};
  }

  // ---------------------------------------------------------------------------------------------
  // HR1 and the device list

  /** The configured router HR1. */
  const Hr1Device: Record := map[
    "device_type" := VStr("huawei"),
    "name" := VStr("HR1"),
    "ssh_ip" := VStr("192.168.31.144"),
    "snmp_ip" := VStr("20.0.0.1"),
    "ssh_username" := VStr("config"),
    "ssh_password" := VStr("Admin@123"),
    "ssh_secret" := VStr("your_enable_secret"),
    "snmp_username" := VStr("monitor"),
    "snmp_auth_protocol" := VStr("SHA"),
    "snmp_auth_password" := VStr("Admin@123"),
    "snmp_priv_protocol" := VStr("AES128"),
    "snmp_priv_password" := VStr("Admin@123"),
    "verbose" := VBool(true),
    "global_delay_factor" := VNum(2),
    "session_log" := VStr("session_log.txt")]

  /** The record of a neighbour found through HR1: HR1's SSH credentials under the unprefixed keys. */
  function NeighborRecord(neName: string, neIp: string): Record {
    map[
      "device_type" := VStr("huawei"),
      "name" := VStr(neName),
      "ssh_ip" := VStr(neIp),
      "username" := Get(Hr1Device, "ssh_username"),
      "password" := Get(Hr1Device, "ssh_password"),
      "secret" := Get(Hr1Device, "ssh_secret"),
      "verbose" := Get(Hr1Device, "verbose"),
      "global_delay_factor" := Get(Hr1Device, "global_delay_factor"),
      "session_log" := VStr("session_log_" + neName + ".txt")]
  }

  /** A neighbour carries its own name and SSH address and no SNMP address. */
  lemma NeighborRecordIdentity(neName: string, neIp: string)
    ensures Get(NeighborRecord(neName, neIp), "name") == VStr(neName)
    ensures Get(NeighborRecord(neName, neIp), "ssh_ip") == VStr(neIp)
    ensures "snmp_ip" !in NeighborRecord(neName, neIp)
  {
  }

  /** A neighbour logs in with HR1's SSH user, password and secret. */
  lemma NeighborRecordCredentials(neName: string, neIp: string)
    ensures Get(NeighborRecord(neName, neIp), "username") == VStr("config")
    ensures Get(NeighborRecord(neName, neIp), "password") == VStr("Admin@123")
    ensures Get(NeighborRecord(neName, neIp), "secret") == VStr("your_enable_secret")
  {
  }

  /** Every device has a name and an SSH address, and no two share an SSH address. */
  predicate WellFormed(devices: seq<Record>) {
    (forall i :: 0 <= i < |devices| ==> "name" in devices[i] && "ssh_ip" in devices[i]) &&
    forall i, j :: 0 <= i < j < |devices| ==> devices[i]["ssh_ip"] != devices[j]["ssh_ip"]
  }

  /** Every device `get_info` looks at has a name: each one up to the first with the name asked
      for (a device without one raises `KeyError` there). */
  predicate NamedUntil(devices: seq<Record>, name: string) {
    forall i :: 0 <= i < |devices| && (forall j :: 0 <= j < i ==> Get(devices[j], "name") != VStr(name)) ==>
      "name" in devices[i]
  }

  /** Some device has the SSH address. */
  predicate SshIpTaken(devices: seq<Record>, ip: string) {
    exists i :: 0 <= i < |devices| && Get(devices[i], "ssh_ip") == VStr(ip)
  }

  /** The neighbours discovery appends, in order, after the accepted neighbours are visited: each
      one whose SSH address no device (old or just appended) has yet. */
  function Appended(devices: seq<Record>, acc: seq<(string, string)>): seq<Record>
    decreases |acc|
  {
    if |acc| == 0 then []
    else
      var prev := Appended(devices, acc[..|acc| - 1]);
      var ne := acc[|acc| - 1];
      if SshIpTaken(devices + prev, ne.1) then prev else prev + [NeighborRecord(ne.0, ne.1)]
  }

  /** One more accepted neighbour is appended exactly when its SSH address is fresh. */
  lemma AppendedStep(devices: seq<Record>, acc: seq<(string, string)>, ne: (string, string))
    ensures SshIpTaken(devices + Appended(devices, acc), ne.1) ==> Appended(devices, acc + [ne]) == Appended(devices, acc)
    ensures !SshIpTaken(devices + Appended(devices, acc), ne.1) ==>
      Appended(devices, acc + [ne]) == Appended(devices, acc) + [NeighborRecord(ne.0, ne.1)]
    ensures devices + (Appended(devices, acc) + [NeighborRecord(ne.0, ne.1)]) ==
      (devices + Appended(devices, acc)) + [NeighborRecord(ne.0, ne.1)]
  {
    assert (acc + [ne])[..|acc|] == acc;
  }

  /** Appending a neighbour with a fresh SSH address keeps the list well formed. */
  lemma AppendKeeps(devices: seq<Record>, ne: (string, string))
    requires WellFormed(devices) && !SshIpTaken(devices, ne.1)
    ensures WellFormed(devices + [NeighborRecord(ne.0, ne.1)])
  {
    NeighborRecordIdentity(ne.0, ne.1);
    var r := devices + [NeighborRecord(ne.0, ne.1)];
    assert forall i :: 0 <= i < |devices| ==> r[i] == devices[i];
    assert forall i :: 0 <= i < |devices| ==> Get(devices[i], "ssh_ip") != VStr(ne.1);
  }

  /** Discovery keeps the SSH addresses unique, and appends at most one record per accepted
      neighbour, each the record of one of them. */
  lemma {:induction false} AppendedKeeps(devices: seq<Record>, acc: seq<(string, string)>)
    requires WellFormed(devices)
    ensures WellFormed(devices + Appended(devices, acc))
    ensures |Appended(devices, acc)| <= |acc|
    ensures forall i :: 0 <= i < |Appended(devices, acc)| ==>
      exists j :: 0 <= j < |acc| && Appended(devices, acc)[i] == NeighborRecord(acc[j].0, acc[j].1)
    decreases |acc|
  {
    if |acc| > 0 {
      var init := acc[..|acc| - 1];
      AppendedKeeps(devices, init);
      var prev := Appended(devices, init);
      var ne := acc[|acc| - 1];
      assert forall j :: 0 <= j < |init| ==> init[j] == acc[j];
      if !SshIpTaken(devices + prev, ne.1) {
        AppendKeeps(devices + prev, ne);
        assert devices + (prev + [NeighborRecord(ne.0, ne.1)]) == (devices + prev) + [NeighborRecord(ne.0, ne.1)];
      }
    }
  }

  /** The application's `devices` list. */
  class HuaweiDevices {
    var devices: seq<Record>

    /** The list holds HR1 alone at start-up. */
    constructor ()
      ensures devices == [Hr1Device]
      ensures Valid()
    {
      devices := [Hr1Device];
    }

    predicate Valid()
      reads this
    {
      WellFormed(devices)
    }

    /** The dedupe step: the neighbour is appended when no device has its SSH address. */
    method AppendNeighbor(neName: string, neIp: string) returns (added: bool)
      requires Valid()
      modifies this
      ensures Valid()
      ensures added == !SshIpTaken(old(devices), neIp)
      ensures devices == if added then old(devices) + [NeighborRecord(neName, neIp)] else old(devices)
    {
      added := !SshIpTaken(devices, neIp);
      if added {
        AppendKeeps(devices, (neName, neIp));
        devices := devices + [NeighborRecord(neName, neIp)];
      }
    }

    /** `discover_neighbors(hr1_device)` over the rows of HR1's LLDP walk: error rows and invalid
        addresses are skipped, and a neighbour is appended both to the result and to the device
        list only when no device has its SSH address. */
    method DiscoverNeighbors(rows: seq<NeInit.NeighborRow>, isValidIp: string -> bool) returns (neighbors: seq<Record>)
      requires Valid()
      modifies this
      ensures Valid()
      ensures neighbors == Appended(old(devices), NeInit.Accepted(false, rows, isValidIp))
      ensures devices == old(devices) + neighbors
    {
      neighbors := [];
      ghost var acc: seq<(string, string)> := [];
      for j := 0 to |rows|
        invariant acc == NeInit.Accepted(false, rows[..j], isValidIp)
        invariant neighbors == Appended(old(devices), acc)
        invariant devices == old(devices) + neighbors
        invariant Valid()
      {
        NeInit.AcceptedStep(false, rows, isValidIp, j);
        var row := rows[j];
        if row.Neighbor? && isValidIp(NeInit.LldpIp(row.addrOid)) {
          var neIp := NeInit.LldpIp(row.addrOid);
          AppendedStep(old(devices), acc, (row.name, neIp));
          var added := AppendNeighbor(row.name, neIp);
          if added {
            neighbors := neighbors + [NeighborRecord(row.name, neIp)];
          }
          acc := acc + [(row.name, neIp)];
        }
      }
      assert rows[..|rows|] == rows;
    }

    /** The `/devices/discover` route: status 200 and the names of the appended neighbours. */
    method Discover(rows: seq<NeInit.NeighborRow>, isValidIp: string -> bool) returns (status: int, names: seq<Value>)
      requires Valid()
      modifies this
      ensures Valid()
      ensures var added := Appended(old(devices), NeInit.Accepted(false, rows, isValidIp));
        status == 200 && devices == old(devices) + added &&
        |names| == |added| && forall i :: 0 <= i < |added| ==> names[i] == Get(added[i], "name")
    {
      var neighbors := DiscoverNeighbors(rows, isValidIp);
      status := 200;
      names := [];
      for j := 0 to |neighbors|
        invariant |names| == j
        invariant forall i :: 0 <= i < j ==> names[i] == Get(neighbors[i], "name")
      {
        names := names + [Get(neighbors[j], "name")];
      }
    }
  }

  // ---------------------------------------------------------------------------------------------
  // The device information endpoint

  /** The first device with the name, or -1. */
  function FirstNamed(devices: seq<Record>, name: string): (i: int)
    ensures -1 <= i < |devices|
    ensures i >= 0 ==> Get(devices[i], "name") == VStr(name) && forall j :: 0 <= j < i ==> Get(devices[j], "name") != VStr(name)
    ensures i < 0 ==> forall j :: 0 <= j < |devices| ==> Get(devices[j], "name") != VStr(name)
    decreases |devices|
  {
    if |devices| == 0 then -1
    else if Get(devices[0], "name") == VStr(name) then 0
    else
      var i := FirstNamed(devices[1..], name);
      if i < 0 then -1 else i + 1
  }

  /** The replies of `get_info`. */
  datatype InfoResponse =
    | DeviceNotFound(name: string)     // 404, 'Device <name> not found'
    | SnmpNotConfigured(name: string)  // 404, 'SNMP not configured for device <name>'
    | InfoData(data: Record)           // 200, status 'success'
    | InfoFailure(error: string)       // 500, status 'failure'

  function StatusOf(r: InfoResponse): int {
    match r
    case DeviceNotFound(_) => 404
    case SnmpNotConfigured(_) => 404
    case InfoData(_) => 200
    case InfoFailure(_) => 500
  }

  /** `get_info(device_name)`: the first device with the name, then its SNMP data when it has an
      SNMP address. `fetch` is the SNMP query (`Failure` when it raises). */
  function GetInfo(devices: seq<Record>, name: string, fetch: Record -> Reply<Record>): (r: InfoResponse)
    requires NamedUntil(devices, name)
    ensures StatusOf(r) == 404 <==> (
      FirstNamed(devices, name) < 0 || "snmp_ip" !in devices[FirstNamed(devices, name)])
    ensures r.DeviceNotFound? <==> forall j :: 0 <= j < |devices| ==> Get(devices[j], "name") != VStr(name)
    ensures r.InfoData? ==>
      exists i :: 0 <= i < |devices| && Get(devices[i], "name") == VStr(name) && fetch(devices[i]) == Ok(r.data)
  {
    var i := FirstNamed(devices, name);
    if i < 0 then DeviceNotFound(name)
    else if "snmp_ip" in devices[i] then
      match fetch(devices[i])
      case Ok(data) => InfoData(data)
      case Failure(e) => InfoFailure(e)
    else SnmpNotConfigured(name)
  }

  /** At start-up, asking for HR1 reaches its SNMP query. */
  lemma Hr1InfoQueried(fetch: Record -> Reply<Record>)
    ensures WellFormed([Hr1Device])
    ensures fetch(Hr1Device).Ok? ==> GetInfo([Hr1Device], "HR1", fetch) == InfoData(fetch(Hr1Device).body)
    ensures fetch(Hr1Device).Failure? ==> GetInfo([Hr1Device], "HR1", fetch) == InfoFailure(fetch(Hr1Device).message)
  {
    assert Get(Hr1Device, "name") == VStr("HR1");
    assert "snmp_ip" in Hr1Device;
  }

  /** A neighbour appended by discovery, unless an earlier device already has its name, answers
      that SNMP is not configured. */
  lemma NeighborInfoNotConfigured(devices: seq<Record>, acc: seq<(string, string)>, k: int, fetch: Record -> Reply<Record>)
    requires WellFormed(devices)
    requires |devices| <= k < |devices + Appended(devices, acc)|
    requires var all := devices + Appended(devices, acc);
      forall j :: 0 <= j < k ==> Get(all[j], "name") != Get(all[k], "name")
    ensures var all := devices + Appended(devices, acc);
      Get(all[k], "name").VStr? && WellFormed(all) &&
      GetInfo(all, Get(all[k], "name").s, fetch) == SnmpNotConfigured(Get(all[k], "name").s)
  {
    AppendedKeeps(devices, acc);
    var all := devices + Appended(devices, acc);
    var j :| 0 <= j < |acc| && Appended(devices, acc)[k - |devices|] == NeighborRecord(acc[j].0, acc[j].1);
    NeighborRecordIdentity(acc[j].0, acc[j].1);
    assert all[k] == NeighborRecord(acc[j].0, acc[j].1);
    assert FirstNamed(all, acc[j].0) == k;
  }
}
