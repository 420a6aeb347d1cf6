/** Neighbour discovery of a network element: the credential filters, the SNMP protocol choice,
    the address of a CDP or LLDP neighbour, and the bookkeeping that records each neighbour in the
    registry. The SNMP walk itself is an input: the rows it returns. */
module NeInit {
  import opened Common
  import opened Registry

  // ---------------------------------------------------------------------------------------------
  // Credential filters

  /** The SSH connection parameters a device record may carry. */
  const SshAllowedKeys: seq<string> :=
    ["device_type", "ip", "username", "password", "secret", "verbose", "global_delay_factor", "session_log"]

  /** The SNMP parameters a device record may carry. */
  const SnmpAllowedKeys: seq<string> := ["ip", "username", "auth_protocol", "auth_password", "priv_protocol", "priv_password"]

  /** The declarative filter: every allowed key present bare or with the prefix, the prefixed
      form taking precedence. */
  function Filtered(info: Record, allowed: seq<string>, prefix: string): Record {
    map k | k in allowed && (k in info || prefix + k in info) :: if prefix + k in info then info[prefix + k] else info[k]
  }

  /** The filter loop shared by `filter_ssh_params` and `filter_snmp_params`: the result holds only
      allowed keys, an allowed key exactly when its bare or prefixed form is in the input, and the
      prefixed value wins over the bare one. */
  method FilterParams(info: Record, allowed: seq<string>, prefix: string) returns (params: Record)
    ensures params == Filtered(info, allowed, prefix)
    ensures forall k :: k in params ==> k in allowed
    ensures forall k :: k in allowed ==> (k in params <==> k in info || prefix + k in info)
    ensures forall k :: k in allowed && prefix + k in info ==> params[k] == info[prefix + k]
    ensures forall k :: k in allowed && prefix + k !in info && k in info ==> params[k] == info[k]
  {
    params := map[];
    for j := 0 to |allowed|
      invariant params == Filtered(info, allowed[..j], prefix)
    {
      var key := allowed[j];
      assert forall k :: k in allowed[..j + 1] <==> k in allowed[..j] || k == key;
      if key in info {
        params := params[key := info[key]];
      }
      if prefix + key in info {
        params := params[key := info[prefix + key]];
      }
    }
    assert allowed[..|allowed|] == allowed;
  }

  /** `filter_ssh_params` (identical in hw_disc.py and the Huawei application). */
  method FilterSshParams(info: Record) returns (params: Record)
    ensures params == Filtered(info, SshAllowedKeys, "ssh_")
    ensures forall k :: k in params ==> k in SshAllowedKeys
  {
    params := FilterParams(info, SshAllowedKeys, "ssh_");
  }

  /** `filter_snmp_params` (identical in hw_disc.py). */
  method FilterSnmpParams(info: Record) returns (params: Record)
    ensures params == Filtered(info, SnmpAllowedKeys, "snmp_")
    ensures forall k :: k in params ==> k in SnmpAllowedKeys
  {
    params := FilterParams(info, SnmpAllowedKeys, "snmp_");
  }

  /** Filtering twice changes nothing once the prefixed keys are gone. */
  lemma FilteredIdempotent(info: Record, allowed: seq<string>, prefix: string)
    requires forall k :: k in allowed ==> prefix + k !in allowed
    ensures Filtered(Filtered(info, allowed, prefix), allowed, prefix) == Filtered(info, allowed, prefix)
  {
    var once := Filtered(info, allowed, prefix);
    forall k | k in allowed
      ensures prefix + k !in once
    {
    }
  }

  // ---------------------------------------------------------------------------------------------
  // Protocol choice

  datatype AuthProtocol = HmacSha | HmacMd5
  datatype PrivProtocol = AesCfb128 | Des

  /** The authentication protocol: SHA when asked for, MD5 for anything else. */
  function AuthProtocolOf(snmpParams: Record): (p: AuthProtocol)
    ensures p == HmacSha <==> Get(snmpParams, "auth_protocol") == VStr("SHA")
  {
    if Get(snmpParams, "auth_protocol") == VStr("SHA") then HmacSha else HmacMd5
  }

  /** The privacy protocol of `discover_neighbors`: AES-128, DES under either of its names, and
      `None` (a `ValueError` in the source) for anything else. */
  function PrivProtocolOf(snmpParams: Record): (r: Option<PrivProtocol>)
    ensures r == Some(AesCfb128) <==> Get(snmpParams, "priv_protocol") == VStr("AES128")
    ensures r == Some(Des) <==> Get(snmpParams, "priv_protocol") in {VStr("DES56"), VStr("DES")}
    ensures r == None <==> Get(snmpParams, "priv_protocol") !in {VStr("AES128"), VStr("DES56"), VStr("DES")}
  {
    var v := Get(snmpParams, "priv_protocol");
    if v == VStr("AES128") then Some(AesCfb128)
    else if v == VStr("DES56") || v == VStr("DES") then Some(Des)
    else None
  }

  // ---------------------------------------------------------------------------------------------
  // Neighbour addresses

  /** Python's `s.split(sep)`: never empty, and no part contains the separator. */
  function Split(s: string, sep: char): (parts: seq<string>)
    ensures |parts| > 0
    ensures forall i :: 0 <= i < |parts| ==> sep !in parts[i]
    decreases |s|
  {
    if |s| == 0 then [""]
    else if s[0] == sep then [""] + Split(s[1..], sep)
    else
      var rest := Split(s[1..], sep);
      [[s[0]] + rest[0]] + rest[1..]
  }

  /** Python's `sep.join(parts)`. */
  function Join(parts: seq<string>, sep: char): string
    decreases |parts|
  {
    if |parts| == 0 then "" else if |parts| == 1 then parts[0] else parts[0] + [sep] + Join(parts[1..], sep)
  }

  /** Joining the parts of a split gives the string back. */
  lemma {:induction false} JoinSplit(s: string, sep: char)
    ensures Join(Split(s, sep), sep) == s
    decreases |s|
  {
    if |s| > 0 {
      JoinSplit(s[1..], sep);
      var rest := Split(s[1..], sep);
      if s[0] == sep {
        assert Split(s, sep) == [""] + rest;
        if |rest| == 1 {
          assert Join(Split(s, sep), sep) == "" + [sep] + rest[0];
        } else {
          assert Join(Split(s, sep), sep) == "" + [sep] + Join(rest, sep);
        }
        assert [s[0]] + s[1..] == s;
      } else {
        var parts := [[s[0]] + rest[0]] + rest[1..];
        if |rest| == 1 {
          assert Join(parts, sep) == [s[0]] + rest[0];
        } else {
          assert parts[1..] == rest[1..];
          assert Join(rest, sep) == rest[0] + [sep] + Join(rest[1..], sep);
          assert Join(parts, sep) == [s[0]] + rest[0] + [sep] + Join(rest[1..], sep);
        }
        assert [s[0]] + s[1..] == s;
      }
    }
  }

  /** Splitting a join of separator-free parts gives the parts back. */
  lemma {:induction false} SplitJoin(parts: seq<string>, sep: char)
    requires |parts| > 0
    requires forall i :: 0 <= i < |parts| ==> sep !in parts[i]
    ensures Split(Join(parts, sep), sep) == parts
    decreases |parts|, |parts[0]|
  {
    if |parts[0]| == 0 {
      if |parts| > 1 {
        SplitJoin(parts[1..], sep);
        var s := Join(parts, sep);
        assert s == [sep] + Join(parts[1..], sep);
        assert s[1..] == Join(parts[1..], sep);
        assert Split(s, sep) == [""] + parts[1..];
        assert [""] + parts[1..] == parts;
      }
    } else {
      var c := parts[0][0];
      var shorter := [parts[0][1..]] + parts[1..];
      assert forall i :: 0 <= i < |shorter| ==> sep !in shorter[i] by {
        forall i | 0 <= i < |shorter| ensures sep !in shorter[i] {
          if i == 0 {
            assert forall x :: x in parts[0][1..] ==> x in parts[0];
          } else {
            assert shorter[i] == parts[i];
          }
        }
      }
      SplitJoin(shorter, sep);
      var s := Join(parts, sep);
      assert c != sep by {
        assert c in parts[0];
      }
      assert shorter[1..] == parts[1..];
      if |parts| == 1 {
        assert s == [c] + Join(shorter, sep);
      } else {
        assert s == [c] + Join(shorter, sep);
      }
      assert s[0] == c && s[1..] == Join(shorter, sep);
      var rest := Split(s[1..], sep);
      assert rest == shorter;
      assert [c] + parts[0][1..] == parts[0];
      assert [[c] + rest[0]] + rest[1..] == parts;
    }
  }

  /** Python's `parts[-4:]`: the last four parts, or all of them when there are fewer. */
  function LastFour<T>(parts: seq<T>): (r: seq<T>)
    ensures |r| == if |parts| < 4 then |parts| else 4
    ensures r == parts[|parts| - |r|..]
  {
    if |parts| < 4 then parts else parts[|parts| - 4..]
  }

  /** The address of an LLDP neighbour: the last four dot-separated parts of the address OID. */
  function LldpIp(addrOid: string): string {
    Join(LastFour(Split(addrOid, '.')), '.')
  }

  /** The parts of the LLDP address are exactly the last four parts of the OID. */
  lemma LldpIpParts(addrOid: string)
    ensures Split(LldpIp(addrOid), '.') == LastFour(Split(addrOid, '.'))
  {
    var parts := Split(addrOid, '.');
    var last := LastFour(parts);
    assert forall i :: 0 <= i < |last| ==> last[i] == parts[|parts| - |last| + i];
    SplitJoin(last, '.');
  }

  /** The address of a CDP neighbour: the address bytes in decimal, joined with dots. */
  function CdpIp(address: seq<nat>): string {
    Join(seq(|address|, i requires 0 <= i < |address| => NatString(address[i])), '.')
  }

  /** A row of the neighbour walk: an error row (skipped) or a neighbour's name with its CDP address
      bytes and its LLDP address OID. */
  datatype NeighborRow = RowError | Neighbor(name: string, cdpAddress: seq<nat>, addrOid: string)

  /** The neighbour address a row carries: CDP for Cisco devices, LLDP for the others. */
  function RowIp(cisco: bool, row: NeighborRow): string
    requires row.Neighbor?
  {
    if cisco then CdpIp(row.cdpAddress) else LldpIp(row.addrOid)
  }

  /** The neighbours a walk reports and keeps, as (name, address) pairs in walk order: rows that are
      not errors and whose address `isValidIp` accepts. */
  function Accepted(cisco: bool, rows: seq<NeighborRow>, isValidIp: string -> bool): (acc: seq<(string, string)>)
    ensures |acc| <= |rows|
    decreases |rows|
  {
    if |rows| == 0 then []
    else
      var row := rows[|rows| - 1];
      var init := Accepted(cisco, rows[..|rows| - 1], isValidIp);
      if row.Neighbor? && isValidIp(RowIp(cisco, row)) then init + [(row.name, RowIp(cisco, row))] else init
  }

  /** One more row of the walk keeps its neighbour exactly when it is valid. */
  lemma AcceptedStep(cisco: bool, rows: seq<NeighborRow>, isValidIp: string -> bool, j: int)
    requires 0 <= j < |rows|
    ensures rows[j].RowError? ==> Accepted(cisco, rows[..j + 1], isValidIp) == Accepted(cisco, rows[..j], isValidIp)
    ensures rows[j].Neighbor? && !isValidIp(RowIp(cisco, rows[j])) ==>
      Accepted(cisco, rows[..j + 1], isValidIp) == Accepted(cisco, rows[..j], isValidIp)
    ensures rows[j].Neighbor? && isValidIp(RowIp(cisco, rows[j])) ==>
      Accepted(cisco, rows[..j + 1], isValidIp) == Accepted(cisco, rows[..j], isValidIp) + [(rows[j].name, RowIp(cisco, rows[j]))]
  {
    assert rows[..j + 1][..j] == rows[..j];
  }

  /** Every accepted neighbour comes from a valid row of the walk, and the walk order is kept. */
  lemma {:induction false} AcceptedFromRows(cisco: bool, rows: seq<NeighborRow>, isValidIp: string -> bool, k: int)
    requires 0 <= k < |Accepted(cisco, rows, isValidIp)|
    ensures exists i :: (0 <= i < |rows| && rows[i].Neighbor? && isValidIp(RowIp(cisco, rows[i])) &&
      Accepted(cisco, rows, isValidIp)[k] == (rows[i].name, RowIp(cisco, rows[i])))
    decreases |rows|
  {
    var init := rows[..|rows| - 1];
    if k < |Accepted(cisco, init, isValidIp)| {
      AcceptedFromRows(cisco, init, isValidIp, k);
      var i :| 0 <= i < |init| && init[i].Neighbor? && isValidIp(RowIp(cisco, init[i])) &&
        Accepted(cisco, init, isValidIp)[k] == (init[i].name, RowIp(cisco, init[i]));
      assert init[i] == rows[i];
    }
  }

  // ---------------------------------------------------------------------------------------------
  // Neighbour records

  /** The keys of the discovering device a neighbour record copies, in the order the record
      literal reads them after `device_type`. */
  const NeighborSourceKeys: seq<string> :=
    ["ssh_username", "ssh_password", "ssh_secret", "verbose", "global_delay_factor", "ip", "network_name"]

  /** The first of `keys` missing from `r` (where the source raises `KeyError`), if any. */
  function FirstMissing(r: Record, keys: seq<string>): (m: Option<string>)
    ensures m == None <==> forall i :: 0 <= i < |keys| ==> keys[i] in r
    ensures m.Some? ==> exists i :: (0 <= i < |keys| && keys[i] == m.value && m.value !in r &&
      forall j :: 0 <= j < i ==> keys[j] in r)
    decreases |keys|
  {
    if |keys| == 0 then None
    else if keys[0] !in r then Some(keys[0])
    else
      var m := FirstMissing(r, keys[1..]);
      if m.Some? then
        assert exists i :: (0 <= i < |keys[1..]| && keys[1..][i] == m.value && m.value !in r &&
          forall j :: 0 <= j < i ==> keys[1..][j] in r);
        var i :| 0 <= i < |keys[1..]| && keys[1..][i] == m.value && m.value !in r &&
          forall j :: 0 <= j < i ==> keys[1..][j] in r;
        assert keys[i + 1] == m.value && forall j :: 0 <= j < i + 1 ==> keys[j] in r;
        m
      else
        m
  }

  /** Whether a device record has everything a neighbour record copies from it. */
  predicate CanDescribeNeighbors(device: Record) {
    "device_type" in device && FirstMissing(device, NeighborSourceKeys) == None
  }

  /** The record of a neighbour found by `device` (whose keys the caller has checked). */
  function NeighborRecord(device: Record, neName: string, neIp: string): Record {
    map[
      "device_type" := Get(device, "device_type"),
      "ne_type" := VStr("defaultIcon"),
      "device_name" := VStr(neName),
      "ip" := VStr(neIp),
      "ssh_username" := Get(device, "ssh_username"),
      "ssh_password" := Get(device, "ssh_password"),
      "ssh_secret" := Get(device, "ssh_secret"),
      "verbose" := Get(device, "verbose"),
      "global_delay_factor" := Get(device, "global_delay_factor"),
      "session_log" := VStr("session_log_" + neName + ".txt"),
      "gne" := Get(device, "ip"),
      "network_name" := Get(device, "network_name")]
  }

  /** A neighbour record has the neighbour's own name and address and its session log. */
  lemma NeighborRecordIdentity(device: Record, neName: string, neIp: string)
    ensures Get(NeighborRecord(device, neName, neIp), "ip") == VStr(neIp)
    ensures Get(NeighborRecord(device, neName, neIp), "device_name") == VStr(neName)
    ensures Get(NeighborRecord(device, neName, neIp), "ne_type") == VStr("defaultIcon")
    ensures Get(NeighborRecord(device, neName, neIp), "session_log") == VStr("session_log_" + neName + ".txt")
  {
  }

  /** A neighbour record names the discovering device as its gateway and inherits its network,
      its device type and its SSH credentials. */
  lemma NeighborRecordInherits(device: Record, neName: string, neIp: string)
    ensures Get(NeighborRecord(device, neName, neIp), "gne") == Get(device, "ip")
    ensures Get(NeighborRecord(device, neName, neIp), "network_name") == Get(device, "network_name")
    ensures Get(NeighborRecord(device, neName, neIp), "device_type") == Get(device, "device_type")
  {
  }

  /** A neighbour record inherits the SSH credentials and the connection settings. */
  lemma NeighborRecordCredentials(device: Record, neName: string, neIp: string)
    ensures Get(NeighborRecord(device, neName, neIp), "ssh_username") == Get(device, "ssh_username")
    ensures Get(NeighborRecord(device, neName, neIp), "ssh_password") == Get(device, "ssh_password")
    ensures Get(NeighborRecord(device, neName, neIp), "ssh_secret") == Get(device, "ssh_secret")
    ensures Get(NeighborRecord(device, neName, neIp), "verbose") == Get(device, "verbose")
    ensures Get(NeighborRecord(device, neName, neIp), "global_delay_factor") == Get(device, "global_delay_factor")
  {
  }

  // ---------------------------------------------------------------------------------------------
  // Registry bookkeeping

  /** Some registered device has the address. */
  predicate IpTaken(devices: map<Value, Record>, ip: string) {
    exists k :: k in devices && Get(devices[k], "ip") == VStr(ip)
  }

  /** No two registered devices share an address. */
  predicate IpsUnique(devices: map<Value, Record>) {
    forall k1, k2 :: k1 in devices && k2 in devices && k1 != k2 ==> Get(devices[k1], "ip") != Get(devices[k2], "ip")
  }

  /** One neighbour's insertion: under its name, unless a device already has its address. */
  function InsertNeighbor(devices: map<Value, Record>, device: Record, ne: (string, string)): map<Value, Record>
  {
    if IpTaken(devices, ne.1) then devices else devices[VStr(ne.0) := NeighborRecord(device, ne.0, ne.1)]
  }

  /** The registry's devices after the accepted neighbours are inserted in order. */
  function InsertNeighbors(devices: map<Value, Record>, device: Record, acc: seq<(string, string)>): map<Value, Record>
    decreases |acc|
  {
    if |acc| == 0 then devices
    else InsertNeighbor(InsertNeighbors(devices, device, acc[..|acc| - 1]), device, acc[|acc| - 1])
  }

  /** An insertion keeps every device with an address and keeps addresses unique; the neighbour's
      address is registered afterwards. */
  lemma InsertNeighborKeeps(devices: map<Value, Record>, device: Record, ne: (string, string))
    requires forall k :: k in devices ==> "ip" in devices[k]
    requires IpsUnique(devices)
    ensures forall k :: k in InsertNeighbor(devices, device, ne) ==> "ip" in InsertNeighbor(devices, device, ne)[k]
    ensures IpsUnique(InsertNeighbor(devices, device, ne))
    ensures IpTaken(InsertNeighbor(devices, device, ne), ne.1)
    ensures devices.Keys <= InsertNeighbor(devices, device, ne).Keys
  {
    NeighborRecordIdentity(device, ne.0, ne.1);
    var r := NeighborRecord(device, ne.0, ne.1);
    assert "ip" in r;
    if !IpTaken(devices, ne.1) {
      var after := devices[VStr(ne.0) := r];
      assert after[VStr(ne.0)] == r;
    }
  }

  /** Discovery keeps the registry valid and its addresses unique; no device is removed. */
  lemma {:induction false} InsertNeighborsKeep(devices: map<Value, Record>, device: Record, acc: seq<(string, string)>)
    requires forall k :: k in devices ==> "ip" in devices[k]
    requires IpsUnique(devices)
    ensures forall k :: k in InsertNeighbors(devices, device, acc) ==> "ip" in InsertNeighbors(devices, device, acc)[k]
    ensures IpsUnique(InsertNeighbors(devices, device, acc))
    ensures devices.Keys <= InsertNeighbors(devices, device, acc).Keys
    decreases |acc|
  {
    if |acc| > 0 {
      InsertNeighborsKeep(devices, device, acc[..|acc| - 1]);
      InsertNeighborKeeps(InsertNeighbors(devices, device, acc[..|acc| - 1]), device, acc[|acc| - 1]);
    }
  }

  /** A device whose name no accepted neighbour has keeps its record, and the keys afterwards are
      the keys before plus some of the neighbours' names. */
  lemma {:induction false} InsertNeighborsFrame(devices: map<Value, Record>, device: Record, acc: seq<(string, string)>, k: Value)
    ensures k in InsertNeighbors(devices, device, acc) ==> k in devices || exists i :: 0 <= i < |acc| && k == VStr(acc[i].0)
    ensures k in devices && (forall i :: 0 <= i < |acc| ==> k != VStr(acc[i].0)) ==>
      k in InsertNeighbors(devices, device, acc) && InsertNeighbors(devices, device, acc)[k] == devices[k]
    decreases |acc|
  {
    if |acc| > 0 {
      var init := acc[..|acc| - 1];
      InsertNeighborsFrame(devices, device, init, k);
      assert forall i :: 0 <= i < |init| ==> init[i] == acc[i];
    }
  }

  /** The discovered-devices dict: the accepted neighbours' records by name, a later neighbour of the
      same name replacing an earlier one. */
  function DiscoveredDevices(device: Record, acc: seq<(string, string)>): map<Value, Record>
  {
    Assign(map[], seq(|acc|, i requires 0 <= i < |acc| => (VStr(acc[i].0), NeighborRecord(device, acc[i].0, acc[i].1))))
  }

  /** One more neighbour assigns its record over the devices discovered so far. */
  lemma DiscoveredStep(device: Record, acc: seq<(string, string)>, ne: (string, string))
    ensures DiscoveredDevices(device, acc + [ne]) == DiscoveredDevices(device, acc)[VStr(ne.0) := NeighborRecord(device, ne.0, ne.1)]
  {
    var acc' := acc + [ne];
    var ps := seq(|acc'|, i requires 0 <= i < |acc'| => (VStr(acc'[i].0), NeighborRecord(device, acc'[i].0, acc'[i].1)));
    var qs := seq(|acc|, i requires 0 <= i < |acc| => (VStr(acc[i].0), NeighborRecord(device, acc[i].0, acc[i].1)));
    assert ps[..|ps| - 1] == qs;
  }

  /** The connections discovery appends: the discovering device to each accepted neighbour. */
  function NewConnections(deviceName: Value, acc: seq<(string, string)>): (cs: seq<(Value, Value)>)
    ensures |cs| == |acc|
    ensures forall i :: 0 <= i < |acc| ==> cs[i] == (deviceName, VStr(acc[i].0))
  {
    seq(|acc|, i requires 0 <= i < |acc| => (deviceName, VStr(acc[i].0)))
  }

  /** The neighbour names in discovery order. */
  function Names(acc: seq<(string, string)>): (ns: seq<string>)
    ensures |ns| == |acc|
    ensures forall i :: 0 <= i < |acc| ==> ns[i] == acc[i].0
  {
    seq(|acc|, i requires 0 <= i < |acc| => acc[i].0)
  }

  /** How each function of the discovery grows by one more neighbour. */
  lemma NeighborStep(devices: map<Value, Record>, conns: seq<(Value, Value)>, device: Record, deviceName: Value,
                     acc: seq<(string, string)>, ne: (string, string))
    ensures "ip" in NeighborRecord(device, ne.0, ne.1)
    ensures InsertNeighbors(devices, device, acc + [ne]) == InsertNeighbor(InsertNeighbors(devices, device, acc), device, ne)
    ensures DiscoveredDevices(device, acc + [ne]) == DiscoveredDevices(device, acc)[VStr(ne.0) := NeighborRecord(device, ne.0, ne.1)]
    ensures conns + NewConnections(deviceName, acc + [ne]) == (conns + NewConnections(deviceName, acc)) + [(deviceName, VStr(ne.0))]
    ensures Names(acc + [ne]) == Names(acc) + [ne.0]
  {
    NeighborRecordIdentity(device, ne.0, ne.1);
    assert (acc + [ne])[..|acc|] == acc;
    DiscoveredStep(device, acc, ne);
  }

  /** The outcome of `discover_neighbors`: the discovered devices and neighbour names, or the
      exception that ends it. */
  datatype Discovery =
    | Discovered(discovered: map<Value, Record>, neighbors: seq<string>)
    | UnsupportedPrivacy(priv: Value)
    | MissingKey(key: string)

  /** Where `discover_neighbors` raises before reading any row: an unsupported privacy protocol,
      then the device's own keys and the SNMP parameters the walk needs. */
  function DiscoveryGuard(device: Record, snmpParams: Record): Option<Discovery> {
    if PrivProtocolOf(snmpParams).None? then Some(UnsupportedPrivacy(Get(snmpParams, "priv_protocol")))
    else if "device_type" !in device then Some(MissingKey("device_type"))
    else if "device_name" !in device then Some(MissingKey("device_name"))
    else if FirstMissing(snmpParams, ["username", "auth_password", "priv_password", "ip"]).Some? then
      Some(MissingKey(FirstMissing(snmpParams, ["username", "auth_password", "priv_password", "ip"]).value))
    else None
  }

  /** Records one neighbour: the connection from the discovering device, and the neighbour's
      record under its name unless a registered device already has its address. */
  method AddNeighbor(registry: Registry, device: Record, neName: string, neIp: string)
    requires registry.Valid() && "device_name" in device
    modifies registry
    ensures registry.Valid()
    ensures registry.devices == InsertNeighbor(old(registry.devices), device, (neName, neIp))
    ensures registry.ne_connections == old(registry.ne_connections) + [(device["device_name"], VStr(neName))]
    ensures registry.devices_snmp == old(registry.devices_snmp) && registry.topo_data == old(registry.topo_data)
  {
    registry.ne_connections := registry.ne_connections + [(device["device_name"], VStr(neName))];
    if !IpTaken(registry.devices, neIp) {
      NeighborRecordIdentity(device, neName, neIp);
      registry.devices := registry.devices[VStr(neName) := NeighborRecord(device, neName, neIp)];
    }
  }

  /** The walk of `discover_neighbors` over its rows. Rows that are errors or carry an invalid
      address are skipped; every other neighbour is recorded among the discovered devices, the
      neighbours and the connections, and is inserted into the registry only when no registered
      device has its address. The first kept neighbour raises `KeyError` when the device lacks
      a key the neighbour record copies, before anything changes. The registry stays valid. */
  method RecordNeighbors(registry: Registry, device: Record, cisco: bool, rows: seq<NeighborRow>, isValidIp: string -> bool)
    returns (r: Discovery)
    requires registry.Valid()
    requires "device_type" in device && "device_name" in device
    modifies registry
    ensures registry.Valid()
    ensures registry.devices_snmp == old(registry.devices_snmp) && registry.topo_data == old(registry.topo_data)
    ensures |Accepted(cisco, rows, isValidIp)| == 0 ==> (
      r == Discovered(map[], []) && registry.devices == old(registry.devices) &&
      registry.ne_connections == old(registry.ne_connections))
    ensures |Accepted(cisco, rows, isValidIp)| > 0 && !CanDescribeNeighbors(device) ==> (
      r == MissingKey(FirstMissing(device, NeighborSourceKeys).value) && registry.devices == old(registry.devices) &&
      registry.ne_connections == old(registry.ne_connections))
    ensures CanDescribeNeighbors(device) ==> (
      var acc := Accepted(cisco, rows, isValidIp);
      r == Discovered(DiscoveredDevices(device, acc), Names(acc)) &&
      registry.devices == InsertNeighbors(old(registry.devices), device, acc) &&
      registry.ne_connections == old(registry.ne_connections) + NewConnections(device["device_name"], acc))
  {
    var discovered: map<Value, Record> := map[];
    var neighbors: seq<string> := [];
    ghost var acc: seq<(string, string)> := [];
    for j := 0 to |rows|
      invariant acc == Accepted(cisco, rows[..j], isValidIp)
      invariant registry.Valid()
      invariant registry.devices_snmp == old(registry.devices_snmp) && registry.topo_data == old(registry.topo_data)
      invariant |acc| > 0 ==> CanDescribeNeighbors(device)
      invariant discovered == DiscoveredDevices(device, acc) && neighbors == Names(acc)
      invariant registry.devices == InsertNeighbors(old(registry.devices), device, acc)
      invariant registry.ne_connections == old(registry.ne_connections) + NewConnections(device["device_name"], acc)
    {
      AcceptedStep(cisco, rows, isValidIp, j);
      var row := rows[j];
      if row.Neighbor? && isValidIp(RowIp(cisco, row)) {
        var neIp := RowIp(cisco, row);
        ghost var ne := (row.name, neIp);
        var missing := FirstMissing(device, NeighborSourceKeys);
        if missing.Some? {
          AcceptedExtends(cisco, rows, isValidIp, j + 1);
          return MissingKey(missing.value);
        }
        NeighborStep(old(registry.devices), old(registry.ne_connections), device, device["device_name"], acc, ne);
        discovered := discovered[VStr(row.name) := NeighborRecord(device, row.name, neIp)];
        neighbors := neighbors + [row.name];
        AddNeighbor(registry, device, row.name, neIp);
        acc := acc + [ne];
      }
    }
    assert rows[..|rows|] == rows;
    r := Discovered(discovered, neighbors);
  }

  /** A longer walk never keeps fewer neighbours. */
  lemma {:induction false} AcceptedExtends(cisco: bool, rows: seq<NeighborRow>, isValidIp: string -> bool, j: int)
    requires 0 <= j <= |rows|
    ensures |Accepted(cisco, rows[..j], isValidIp)| <= |Accepted(cisco, rows, isValidIp)|
    decreases |rows| - j
  {
    if j < |rows| {
      AcceptedExtends(cisco, rows, isValidIp, j + 1);
      assert rows[..j + 1][..j] == rows[..j];
    } else {
      assert rows[..j] == rows;
    }
  }

  /** `discover_neighbors`: the checks that raise before the walk, then the walk. */
  method DiscoverNeighbors(registry: Registry, device: Record, rows: seq<NeighborRow>, isValidIp: string -> bool)
    returns (r: Discovery)
    requires registry.Valid()
    modifies registry
    ensures registry.Valid()
    ensures registry.devices_snmp == old(registry.devices_snmp) && registry.topo_data == old(registry.topo_data)
    ensures var guard := DiscoveryGuard(device, Filtered(device, SnmpAllowedKeys, "snmp_"));
      guard.Some? ==> (r == guard.value && registry.devices == old(registry.devices) &&
        registry.ne_connections == old(registry.ne_connections))
    ensures var guard := DiscoveryGuard(device, Filtered(device, SnmpAllowedKeys, "snmp_"));
      var acc := Accepted("device_type" in device && device["device_type"] == VStr("cisco_ios"), rows, isValidIp);
      guard.None? && |acc| > 0 && CanDescribeNeighbors(device) ==> (
        r == Discovered(DiscoveredDevices(device, acc), Names(acc)) &&
        registry.devices == InsertNeighbors(old(registry.devices), device, acc) &&
        registry.ne_connections == old(registry.ne_connections) + NewConnections(device["device_name"], acc))
    ensures var guard := DiscoveryGuard(device, Filtered(device, SnmpAllowedKeys, "snmp_"));
      var acc := Accepted("device_type" in device && device["device_type"] == VStr("cisco_ios"), rows, isValidIp);
      guard.None? && |acc| > 0 && !CanDescribeNeighbors(device) ==> (
        r == MissingKey(FirstMissing(device, NeighborSourceKeys).value) &&
        registry.devices == old(registry.devices) && registry.ne_connections == old(registry.ne_connections))
    ensures var guard := DiscoveryGuard(device, Filtered(device, SnmpAllowedKeys, "snmp_"));
      var acc := Accepted("device_type" in device && device["device_type"] == VStr("cisco_ios"), rows, isValidIp);
      guard.None? && |acc| == 0 ==> (
        r == Discovered(map[], []) && registry.devices == old(registry.devices) &&
        registry.ne_connections == old(registry.ne_connections))
  {
    var snmpParams := FilterSnmpParams(device);
    var guard := DiscoveryGuard(device, snmpParams);
    if guard.Some? {
      return guard.value;
    }
    r := RecordNeighbors(registry, device, device["device_type"] == VStr("cisco_ios"), rows, isValidIp);
  }
}
