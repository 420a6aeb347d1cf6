/** Neighbour discovery for Huawei equipment and the gateway lookup that precedes a query through
    a gateway network element (GNE). The module keeps its own `devices` dict, which Python orders
    by insertion: it is a sequence of (name, record) entries with distinct names, where assigning
    an existing name replaces that entry in place and a new name is appended. The SNMP walk is an
    input (its rows); the SSH dialogue with the gateway is not modelled. */
module HwDisc {
  import opened Common
  import NeInit

  // ---------------------------------------------------------------------------------------------
  // Protocol choice

  /** The privacy protocol of hw_disc.py: AES-128 when asked for, DES for anything else, never
      an error. */
  function LenientPrivProtocolOf(snmpParams: Record): (p: NeInit.PrivProtocol)
    ensures p == NeInit.AesCfb128 <==> Get(snmpParams, "priv_protocol") == VStr("AES128")
    ensures p == NeInit.Des <==> Get(snmpParams, "priv_protocol") != VStr("AES128")
  {
    if Get(snmpParams, "priv_protocol") == VStr("AES128") then NeInit.AesCfb128 else NeInit.Des
  }

  /** Wherever the strict choice of ne_init.py succeeds, the lenient one picks the same protocol. */
  lemma LenientAgreesWithStrict(snmpParams: Record)
    ensures NeInit.PrivProtocolOf(snmpParams).Some? ==>
      LenientPrivProtocolOf(snmpParams) == NeInit.PrivProtocolOf(snmpParams).value
    ensures NeInit.PrivProtocolOf(snmpParams).None? ==> LenientPrivProtocolOf(snmpParams) == NeInit.Des
  {
  }

  // ---------------------------------------------------------------------------------------------
  // The ordered `devices` dict

  type Entries = seq<(string, Record)>

  predicate KeysUnique(entries: Entries) {
    forall i, j :: 0 <= i < j < |entries| ==> entries[i].0 != entries[j].0
  }

  /** Every registered device has an address, so the scans over `d['ip']` never raise. */
  predicate HaveIps(entries: Entries) {
    forall i :: 0 <= i < |entries| ==> "ip" in entries[i].1
  }

  /** No two registered devices share an address. */
  predicate IpsUnique(entries: Entries) {
    forall i, j :: 0 <= i < j < |entries| ==> Get(entries[i].1, "ip") != Get(entries[j].1, "ip")
  }

  function Keys(entries: Entries): set<string> {
    set i | 0 <= i < |entries| :: entries[i].0
  }

  /** The position of a name in the dict, or -1. */
  function KeyIndex(entries: Entries, k: string): (i: int)
    ensures -1 <= i < |entries|
    ensures i >= 0 ==> entries[i].0 == k
    ensures i < 0 <==> k !in Keys(entries)
    decreases |entries|
  {
    if |entries| == 0 then -1
    else if entries[|entries| - 1].0 == k then |entries| - 1
    else
      var i := KeyIndex(entries[..|entries| - 1], k);
      assert Keys(entries) == Keys(entries[..|entries| - 1]) + {entries[|entries| - 1].0};
      i
  }

  /** `d[k] = v` on the ordered dict. */
  function Put(entries: Entries, k: string, v: Record): Entries {
    var i := KeyIndex(entries, k);
    if i < 0 then entries + [(k, v)] else entries[i := (k, v)]
  }

  /** An assignment keeps the names distinct and the existing names in place, adds its name, and
      changes no entry under another name. */
  lemma PutFacts(entries: Entries, k: string, v: Record)
    requires KeysUnique(entries)
    ensures KeysUnique(Put(entries, k, v))
    ensures Keys(Put(entries, k, v)) == Keys(entries) + {k}
    ensures |entries| <= |Put(entries, k, v)|
    ensures forall i :: 0 <= i < |entries| ==> Put(entries, k, v)[i].0 == entries[i].0
    ensures forall i :: 0 <= i < |entries| && entries[i].0 != k ==> Put(entries, k, v)[i] == entries[i]
    ensures forall i :: |entries| <= i < |Put(entries, k, v)| ==> Put(entries, k, v)[i] == (k, v)
    ensures exists i :: 0 <= i < |Put(entries, k, v)| && Put(entries, k, v)[i] == (k, v)
  {
    var i := KeyIndex(entries, k);
    var r := Put(entries, k, v);
    if i < 0 {
      assert r[|entries|] == (k, v);
      assert Keys(r) == Keys(entries) + {k} by {
        assert forall j :: 0 <= j < |entries| ==> r[j] == entries[j];
      }
    } else {
      assert r[i] == (k, v);
      assert Keys(r) == Keys(entries) + {k} by {
        assert forall j :: 0 <= j < |entries| ==> r[j].0 == entries[j].0;
      }
    }
  }

  /** Some registered device has the address. */
  predicate IpRegistered(entries: Entries, ip: string) {
    exists i :: 0 <= i < |entries| && Get(entries[i].1, "ip") == VStr(ip)
  }

  // ---------------------------------------------------------------------------------------------
  // Neighbour records and discovery

  /** The record of a neighbour found by `device` (whose keys the caller has checked): a Huawei
      device with no icon type, inheriting the discovering device's credentials and network. */
  function NeighborRecord(device: Record, neName: string, neIp: string): Record {
    map[
      "device_type" := VStr("huawei"),
      "device_name" := VStr(neName),
      "ip" := VStr(neIp),
      "ssh_username" := Get(device, "ssh_username"),
      "ssh_password" := Get(device, "ssh_password"),
      "ssh_secret" := Get(device, "ssh_secret"),
      "verbose" := Get(device, "verbose"),
      "global_delay_factor" := Get(device, "global_delay_factor"),
      "session_log" := VStr("session_log_" + neName + ".txt"),
      "gne" := Get(device, "ip"),
      "network_name" := Get(device, "network_name")]
  }

  /** A neighbour record is a Huawei device with its own name and address and no icon type. */
  lemma NeighborRecordIdentity(device: Record, neName: string, neIp: string)
    ensures Get(NeighborRecord(device, neName, neIp), "ip") == VStr(neIp)
    ensures Get(NeighborRecord(device, neName, neIp), "device_name") == VStr(neName)
    ensures Get(NeighborRecord(device, neName, neIp), "device_type") == VStr("huawei")
    ensures "ne_type" !in NeighborRecord(device, neName, neIp)
    ensures Get(NeighborRecord(device, neName, neIp), "session_log") == VStr("session_log_" + neName + ".txt")
  {
  }

  /** A neighbour record names the discovering device as its gateway and copies its network,
      its SSH credentials and its connection settings under the same keys. */
  lemma NeighborRecordInherits(device: Record, neName: string, neIp: string)
    ensures Get(NeighborRecord(device, neName, neIp), "gne") == Get(device, "ip")
    ensures Get(NeighborRecord(device, neName, neIp), "network_name") == Get(device, "network_name")
    ensures Get(NeighborRecord(device, neName, neIp), "ssh_username") == Get(device, "ssh_username")
    ensures Get(NeighborRecord(device, neName, neIp), "ssh_password") == Get(device, "ssh_password")
    ensures Get(NeighborRecord(device, neName, neIp), "ssh_secret") == Get(device, "ssh_secret")
    ensures Get(NeighborRecord(device, neName, neIp), "verbose") == Get(device, "verbose")
    ensures Get(NeighborRecord(device, neName, neIp), "global_delay_factor") == Get(device, "global_delay_factor")
  {
  }

  /** The dict and the returned names after the accepted neighbours are visited in order: a
      neighbour is assigned under its name, and its name returned, only when no registered device
      has its address at that point. */
  function Walked(entries: Entries, device: Record, acc: seq<(string, string)>): (Entries, seq<string>)
    decreases |acc|
  {
    if |acc| == 0 then (entries, [])
    else
      var prev := Walked(entries, device, acc[..|acc| - 1]);
      var ne := acc[|acc| - 1];
      if IpRegistered(prev.0, ne.1) then prev
      else (Put(prev.0, ne.0, NeighborRecord(device, ne.0, ne.1)), prev.1 + [ne.0])
  }

  /** One insertion keeps the names distinct, every device addressed and the addresses distinct. */
  lemma InsertKeeps(entries: Entries, device: Record, ne: (string, string))
    requires KeysUnique(entries) && HaveIps(entries) && IpsUnique(entries)
    requires !IpRegistered(entries, ne.1)
    ensures var r := Put(entries, ne.0, NeighborRecord(device, ne.0, ne.1));
      KeysUnique(r) && HaveIps(r) && IpsUnique(r)
  {
    var rec := NeighborRecord(device, ne.0, ne.1);
    NeighborRecordIdentity(device, ne.0, ne.1);
    PutFacts(entries, ne.0, rec);
    var r := Put(entries, ne.0, rec);
    var p := KeyIndex(entries, ne.0);
    var pos := if p < 0 then |entries| else p;
    assert r[pos] == (ne.0, rec);
    assert forall i :: 0 <= i < |r| && i != pos ==> i < |entries| && r[i] == entries[i];
    forall i, j | 0 <= i < j < |r|
      ensures Get(r[i].1, "ip") != Get(r[j].1, "ip")
    {
      if i == pos {
        assert Get(r[j].1, "ip") != VStr(ne.1);
      } else if j == pos {
        assert Get(r[i].1, "ip") != VStr(ne.1);
      }
    }
  }

  /** Discovery keeps the names distinct, every device addressed and the addresses distinct. */
  lemma {:induction false} WalkedKeeps(entries: Entries, device: Record, acc: seq<(string, string)>)
    requires KeysUnique(entries) && HaveIps(entries) && IpsUnique(entries)
    ensures var r := Walked(entries, device, acc).0; KeysUnique(r) && HaveIps(r) && IpsUnique(r)
    decreases |acc|
  {
    if |acc| > 0 {
      WalkedKeeps(entries, device, acc[..|acc| - 1]);
      var prev := Walked(entries, device, acc[..|acc| - 1]);
      if !IpRegistered(prev.0, acc[|acc| - 1].1) {
        InsertKeeps(prev.0, device, acc[|acc| - 1]);
      }
    }
  }

  /** The names afterwards are the names before plus the returned ones, at most one per accepted
      neighbour; the existing names keep their positions. */
  lemma {:induction false} WalkedKeys(entries: Entries, device: Record, acc: seq<(string, string)>)
    requires KeysUnique(entries)
    ensures KeysUnique(Walked(entries, device, acc).0)
    ensures Keys(Walked(entries, device, acc).0) == Keys(entries) + set n | n in Walked(entries, device, acc).1
    ensures |Walked(entries, device, acc).1| <= |acc|
    ensures |entries| <= |Walked(entries, device, acc).0|
    ensures forall i :: 0 <= i < |entries| ==> Walked(entries, device, acc).0[i].0 == entries[i].0
    decreases |acc|
  {
    if |acc| > 0 {
      WalkedKeys(entries, device, acc[..|acc| - 1]);
      var prev := Walked(entries, device, acc[..|acc| - 1]);
      var ne := acc[|acc| - 1];
      if !IpRegistered(prev.0, ne.1) {
        PutFacts(prev.0, ne.0, NeighborRecord(device, ne.0, ne.1));
        var r := Walked(entries, device, acc);
        assert (set n | n in r.1) == (set n | n in prev.1) + {ne.0} by {
          assert r.1 == prev.1 + [ne.0];
        }
      }
    }
  }

  /** Every returned name is a key of the dict afterwards. */
  lemma ReturnedNamesRegistered(entries: Entries, device: Record, acc: seq<(string, string)>)
    requires KeysUnique(entries)
    ensures forall i :: 0 <= i < |Walked(entries, device, acc).1| ==>
      Walked(entries, device, acc).1[i] in Keys(Walked(entries, device, acc).0)
  {
    WalkedKeys(entries, device, acc);
  }

  /** The outcome of `discover_neighbors`: the names of the neighbours added, or the key whose
      absence raised `KeyError`. */
  datatype Discovery = Added(names: seq<string>) | MissingKey(key: string)

  /** Where `discover_neighbors` raises before reading any row: the device's name, then the SNMP
      user parameters and the SNMP address. */
  function DiscoveryGuard(device: Record, snmpParams: Record): (g: Option<string>)
    ensures g.None? <==> (
      "device_name" in device && "username" in snmpParams && "auth_password" in snmpParams &&
      "priv_password" in snmpParams && "ip" in snmpParams)
  {
    if "device_name" !in device then Some("device_name")
    else NeInit.FirstMissing(snmpParams, ["username", "auth_password", "priv_password", "ip"])
  }

  /** The module-level `devices` dict of hw_disc.py. */
  class HwDevices {
    var entries: Entries

    constructor ()
      ensures entries == []
    {
      entries := [];
    }

    predicate Valid()
      reads this
    {
      KeysUnique(entries) && HaveIps(entries)
    }

    /** The dedupe step: the neighbour is assigned under its name when no registered device has
        its address. */
    method AddNeighbor(device: Record, neName: string, neIp: string) returns (added: bool)
      requires Valid()
      modifies this
      ensures Valid()
      ensures added == !IpRegistered(old(entries), neIp)
      ensures entries == if added then Put(old(entries), neName, NeighborRecord(device, neName, neIp)) else old(entries)
    {
      added := !IpRegistered(entries, neIp);
      if added {
        var rec := NeighborRecord(device, neName, neIp);
        NeighborRecordIdentity(device, neName, neIp);
        PutFacts(entries, neName, rec);
        entries := Put(entries, neName, rec);
      }
    }

    /** `discover_neighbors` over the rows of an LLDP walk. Error rows and invalid addresses are
        skipped; the first kept neighbour raises `KeyError` when the device lacks a key its record
        copies, before anything changes. The names returned are those assigned, in order. */
    method DiscoverNeighbors(device: Record, rows: seq<NeInit.NeighborRow>, isValidIp: string -> bool)
      returns (r: Discovery)
      requires Valid()
      modifies this
      ensures Valid()
      ensures var guard := DiscoveryGuard(device, NeInit.Filtered(device, NeInit.SnmpAllowedKeys, "snmp_"));
        guard.Some? ==> r == MissingKey(guard.value) && entries == old(entries)
      ensures var guard := DiscoveryGuard(device, NeInit.Filtered(device, NeInit.SnmpAllowedKeys, "snmp_"));
        var acc := NeInit.Accepted(false, rows, isValidIp);
        guard.None? && |acc| > 0 && NeInit.FirstMissing(device, NeInit.NeighborSourceKeys).Some? ==>
          r == MissingKey(NeInit.FirstMissing(device, NeInit.NeighborSourceKeys).value) && entries == old(entries)
      ensures var guard := DiscoveryGuard(device, NeInit.Filtered(device, NeInit.SnmpAllowedKeys, "snmp_"));
        var acc := NeInit.Accepted(false, rows, isValidIp);
        guard.None? && (|acc| == 0 || NeInit.FirstMissing(device, NeInit.NeighborSourceKeys).None?) ==>
          r == Added(Walked(old(entries), device, acc).1) && entries == Walked(old(entries), device, acc).0
    {
      var snmpParams := NeInit.FilterSnmpParams(device);
      var guard := DiscoveryGuard(device, snmpParams);
      if guard.Some? {
        return MissingKey(guard.value);
      }
      r := WalkRows(device, rows, isValidIp);
    }

    /** The loop of `discover_neighbors` over its rows. */
    method WalkRows(device: Record, rows: seq<NeInit.NeighborRow>, isValidIp: string -> bool) returns (r: Discovery)
      requires Valid()
      modifies this
      ensures Valid()
      ensures var acc := NeInit.Accepted(false, rows, isValidIp);
        |acc| > 0 && NeInit.FirstMissing(device, NeInit.NeighborSourceKeys).Some? ==>
          r == MissingKey(NeInit.FirstMissing(device, NeInit.NeighborSourceKeys).value) && entries == old(entries)
      ensures var acc := NeInit.Accepted(false, rows, isValidIp);
        |acc| == 0 || NeInit.FirstMissing(device, NeInit.NeighborSourceKeys).None? ==>
          r == Added(Walked(old(entries), device, acc).1) && entries == Walked(old(entries), device, acc).0
    {
      var neighbors: seq<string> := [];
      ghost var acc: seq<(string, string)> := [];
      for j := 0 to |rows|
        invariant acc == NeInit.Accepted(false, rows[..j], isValidIp)
        invariant Valid()
        invariant |acc| > 0 ==> NeInit.FirstMissing(device, NeInit.NeighborSourceKeys).None?
        invariant (entries, neighbors) == Walked(old(entries), device, acc)
      {
        NeInit.AcceptedStep(false, rows, isValidIp, j);
        var row := rows[j];
        if row.Neighbor? && isValidIp(NeInit.LldpIp(row.addrOid)) {
          var neIp := NeInit.LldpIp(row.addrOid);
          var missing := NeInit.FirstMissing(device, NeInit.NeighborSourceKeys);
          if missing.Some? {
            NeInit.AcceptedExtends(false, rows, isValidIp, j + 1);
            return MissingKey(missing.value);
          }
          assert (acc + [(row.name, neIp)])[..|acc|] == acc;
          var added := AddNeighbor(device, row.name, neIp);
          if added {
            neighbors := neighbors + [row.name];
          }
          acc := acc + [(row.name, neIp)];
        }
      }
      assert rows[..|rows|] == rows;
      r := Added(neighbors);
    }
  }

  // ---------------------------------------------------------------------------------------------
  // Gateway lookup

  /** Python's `str(n)` for an integer. */
  function IntString(n: int): (s: string)
    ensures |s| > 0
  {
    if n < 0 then "-" + NatString(-n) else NatString(n)
  }

  /** Python's `str(v)`, as an f-string renders it. */
  function PyStr(v: Value): string
    decreases v
  {
    match v
    case VUndefined => "None"
    case VNull => "None"
    case VBool(b) => if b then "True" else "False"
    case VNum(n) => IntString(n)
    case VStr(s) => s
    case VList(items) => "[" + PyReprs(items) + "]"
  }

  /** The comma-separated `repr` of list items. */
  function PyReprs(items: seq<Value>): string
    decreases items
  {
    if |items| == 0 then ""
    else
      var first := if items[0].VStr? then "'" + items[0].s + "'" else PyStr(items[0]);
      if |items| == 1 then first else first + ", " + PyReprs(items[1..])
  }

  /** Where the scan for an address stops: the first device holding it, the first device without
      an `ip` key (`KeyError`), or the end. */
  datatype Scan = Match(at: nat) | NoIp(at: nat) | NoMatch

  function ScanIp(entries: Entries, ip: Value): (s: Scan)
    ensures s.Match? ==> (
      s.at < |entries| && "ip" in entries[s.at].1 && entries[s.at].1["ip"] == ip &&
      forall j :: 0 <= j < s.at ==> "ip" in entries[j].1 && entries[j].1["ip"] != ip)
    ensures s.NoIp? ==> (
      s.at < |entries| && "ip" !in entries[s.at].1 &&
      forall j :: 0 <= j < s.at ==> "ip" in entries[j].1 && entries[j].1["ip"] != ip)
    ensures s.NoMatch? ==> forall j :: 0 <= j < |entries| ==> "ip" in entries[j].1 && entries[j].1["ip"] != ip
    decreases |entries|
  {
    if |entries| == 0 then NoMatch
    else if "ip" !in entries[0].1 then NoIp(0)
    else if entries[0].1["ip"] == ip then Match(0)
    else
      match ScanIp(entries[1..], ip)
      case Match(i) => Match(i + 1)
      case NoIp(i) => NoIp(i + 1)
      case NoMatch => NoMatch
  }

  /** The outcome of the gateway lookup: the gateway's name and record, or the failure message. */
  datatype GneLookup = GneFound(name: string, gne: Record) | GneFailure(error: string)

  /** The gateway of `target`: the first device whose address equals the target's `gne`; a device
      named "" counts as not found. */
  function GneOf(entries: Entries, target: Record): (r: GneLookup)
    ensures "device_name" !in target ==> r == GneFailure("'device_name'")
    ensures r.GneFound? ==> (
      r.name != "" &&
      exists i :: (0 <= i < |entries| && entries[i] == (r.name, r.gne) && "ip" in r.gne && r.gne["ip"] == Get(target, "gne") &&
        forall j :: 0 <= j < i ==> "ip" in entries[j].1 && entries[j].1["ip"] != Get(target, "gne")))
    ensures "device_name" in target && HaveIps(entries) && r.GneFailure? ==> (
      r.error == "GNE device not found for IP: " + PyStr(Get(target, "gne")) &&
      forall i :: 0 <= i < |entries| && entries[i].1["ip"] == Get(target, "gne") ==> (
        entries[i].0 == "" || exists j :: 0 <= j < i && entries[j].1["ip"] == Get(target, "gne")))
  {
    if "device_name" !in target then GneFailure("'device_name'")
    else
      var gne := Get(target, "gne");
      match ScanIp(entries, gne)
      case NoIp(_) => GneFailure("'ip'")
      case NoMatch => GneFailure("GNE device not found for IP: " + PyStr(gne))
      case Match(i) =>
        if entries[i].0 == "" then GneFailure("GNE device not found for IP: " + PyStr(gne))
        else GneFound(entries[i].0, entries[i].1)
  }

  /** The lookup loop of `query_device_via_gateway`. */
  method FindGne(hw: HwDevices, target: Record) returns (r: GneLookup)
    ensures r == GneOf(hw.entries, target)
  {
    if "device_name" !in target {
      return GneFailure("'device_name'");
    }
    var gne := Get(target, "gne");
    var entries := hw.entries;
    var i := 0;
    while i < |entries|
      invariant 0 <= i <= |entries|
      invariant forall j :: 0 <= j < i ==> "ip" in entries[j].1 && entries[j].1["ip"] != gne
    {
      var (name, d) := entries[i];
      if "ip" !in d {
        return GneFailure("'ip'");
      }
      if d["ip"] == gne {
        if name == "" {
          return GneFailure("GNE device not found for IP: " + PyStr(gne));
        }
        return GneFound(name, d);
      }
      i := i + 1;
    }
    r := GneFailure("GNE device not found for IP: " + PyStr(gne));
  }
}
