/** Generating the topology graph of a network from the registry: its nodes are the network's
    devices, its edges the explicit neighbour connections between them plus the links derived from
    interface addresses; a graph is undirected, so an edge is the set of its endpoints. */
module TopoInit {
  import opened Common
  import opened Registry

  /** A generated topology: node attributes by device name, and undirected edges. */
  datatype Topology = Topology(nodes: map<Value, NodeAttrs>, edges: set<set<Value>>)

  // ---------------------------------------------------------------------------------------------
  // Subnet test

  /** The /30 network of an IPv4 address (as a 32-bit number): its network address. */
  function Network30(a: nat): (n: nat)
    ensures n <= a < n + 4 && n % 4 == 0
  {
    a - a % 4
  }

  /** Whether an address lies in the /30 network whose network address is `n`. */
  predicate InNetwork30(a: nat, n: nat) {
    n <= a < n + 4
  }

  /** `are_ips_in_same_subnet` as written: each address is tested against its own /30
      network. `parse` is the address parser (`None` for a string that is not an IPv4 address,
      where the source raises); the answer is `None` when either address does not parse. */
  function AreIpsInSameSubnetAsWritten(ip1: Value, ip2: Value, parse: Value -> Option<nat>): (r: Option<bool>)
    ensures r.Some? <==> parse(ip1).Some? && parse(ip2).Some?
    ensures r.Some? ==> r.value
  {
    match (parse(ip1), parse(ip2))
    case (Some(a), Some(b)) => Some(InNetwork30(a, Network30(a)) && InNetwork30(b, Network30(b)))
    case _ => None
  }

  /** The evidently intended test: the second address lies in the first address's /30 network. */
  function AreIpsInSameSubnet(ip1: Value, ip2: Value, parse: Value -> Option<nat>): (r: Option<bool>)
    ensures r.Some? <==> parse(ip1).Some? && parse(ip2).Some?
    ensures r.Some? ==> (r.value <==> parse(ip1).value / 4 == parse(ip2).value / 4)
  {
    match (parse(ip1), parse(ip2))
    case (Some(a), Some(b)) => Some(InNetwork30(b, Network30(a)))
    case _ => None
  }

  /** The corrected test is symmetric. */
  lemma SameSubnetSymmetric(ip1: Value, ip2: Value, parse: Value -> Option<nat>)
    ensures AreIpsInSameSubnet(ip1, ip2, parse) == AreIpsInSameSubnet(ip2, ip1, parse)
  {
  }

  /** Two addresses in different /30 networks: the test as written still says they share one. */
  lemma AsWrittenJoinsDistantAddresses()
    ensures var parse := (v: Value) => if v == VStr("10.0.0.1") then Some(167772161)
                                       else if v == VStr("192.168.0.1") then Some(3232235521) else None;
      AreIpsInSameSubnetAsWritten(VStr("10.0.0.1"), VStr("192.168.0.1"), parse) == Some(true) &&
      AreIpsInSameSubnet(VStr("10.0.0.1"), VStr("192.168.0.1"), parse) == Some(false)
  {
    var parse := (v: Value) => if v == VStr("10.0.0.1") then Some(167772161)
                               else if v == VStr("192.168.0.1") then Some(3232235521) else None;
    assert VStr("10.0.0.1") != VStr("192.168.0.1") by {
      assert "10.0.0.1"[1] != "192.168.0.1"[1];
    }
    assert parse(VStr("10.0.0.1")) == Some(167772161);
    assert parse(VStr("192.168.0.1")) == Some(3232235521);
  }

  // ---------------------------------------------------------------------------------------------
  // The declarative topology

  /** `filtered_devices`: the devices whose `network_name` is the network's. */
  function NetworkDevices(devices: map<Value, Record>, networkName: string): (f: map<Value, Record>)
    ensures f.Keys <= devices.Keys
    ensures forall k :: k in devices ==> (k in f <==> Get(devices[k], "network_name") == VStr(networkName))
    ensures forall k :: k in f ==> f[k] == devices[k]
  {
    map k | k in devices && Get(devices[k], "network_name") == VStr(networkName) :: devices[k]
  }

  /** The node set: every device of the network, labelled with its name and address. */
  function NodesOf(filtered: map<Value, Record>): map<Value, NodeAttrs> {
    map k | k in filtered :: NodeAttrs(Get(filtered[k], "device_name"), Get(filtered[k], "ip"))
  }

  /** `filtered_connections`: the connections whose two endpoints are devices of the network. */
  predicate Internal(filtered: map<Value, Record>, c: (Value, Value)) {
    c.0 in filtered && c.1 in filtered
  }

  /** The explicit connections between devices of the network, as endpoint pairs. */
  function InternalConnections(conns: seq<(Value, Value)>, filtered: map<Value, Record>): set<(Value, Value)> {
    set c | c in conns && Internal(filtered, c)
  }

  /** The undirected edges of a set of endpoint pairs: `(a, b)` and `(b, a)` are the same edge. */
  function EdgesOf(links: set<(Value, Value)>): set<set<Value>> {
    set p | p in links :: {p.0, p.1}
  }

  /** The SNMP interfaces of a device (none when it has no SNMP data). */
  function InterfacesOf(snmp: map<Value, seq<Record>>, d: Value): seq<Record> {
    if d in snmp then snmp[d] else []
  }

  function AddressOf(iface: Record): Value {
    Get(iface, "IP Address")
  }

  /** Some interface address `y` of `ys` is found in the subnet of `x`. */
  predicate LinksAt(x: Value, ys: seq<Record>, same: (Value, Value) -> Option<bool>) {
    exists j :: 0 <= j < |ys| && PyTruthy(AddressOf(ys[j])) && same(x, AddressOf(ys[j])) == Some(true)
  }

  /** The subnet test raises for `x` and some interface address of `ys`. */
  predicate RaisesAt(x: Value, ys: seq<Record>, same: (Value, Value) -> Option<bool>) {
    exists j :: 0 <= j < |ys| && PyTruthy(AddressOf(ys[j])) && same(x, AddressOf(ys[j])).None?
  }

  /** The subnet test raises for the address `x` of device `d` and some other device of the network. */
  predicate RaisesFrom(snmp: map<Value, seq<Record>>, filtered: map<Value, Record>, d: Value, x: Value,
                       same: (Value, Value) -> Option<bool>) {
    exists o :: o in filtered && o != d && RaisesAt(x, InterfacesOf(snmp, o), same)
  }

  /** The subnet test raises for some interface address of device `d`. */
  predicate DeviceRaises(snmp: map<Value, seq<Record>>, filtered: map<Value, Record>, d: Value,
                         same: (Value, Value) -> Option<bool>) {
    exists i :: 0 <= i < |InterfacesOf(snmp, d)| && PyTruthy(AddressOf(InterfacesOf(snmp, d)[i])) &&
      RaisesFrom(snmp, filtered, d, AddressOf(InterfacesOf(snmp, d)[i]), same)
  }

  /** The subnet test raises somewhere in the scan, which ends the generation. */
  predicate Raises(snmp: map<Value, seq<Record>>, filtered: map<Value, Record>, same: (Value, Value) -> Option<bool>) {
    exists d :: d in filtered && DeviceRaises(snmp, filtered, d, same)
  }

  /** Some interface address of `d` shares a subnet with some interface address of `o`. */
  predicate Linked(snmp: map<Value, seq<Record>>, d: Value, o: Value, same: (Value, Value) -> Option<bool>) {
    exists i :: 0 <= i < |InterfacesOf(snmp, d)| && PyTruthy(AddressOf(InterfacesOf(snmp, d)[i])) &&
      LinksAt(AddressOf(InterfacesOf(snmp, d)[i]), InterfacesOf(snmp, o), same)
  }

  /** The devices a scan of device `d` links it to. */
  function LinkedFrom(snmp: map<Value, seq<Record>>, filtered: map<Value, Record>, d: Value,
                      same: (Value, Value) -> Option<bool>): set<Value> {
    set o | o in filtered && o != d && Linked(snmp, d, o, same)
  }

  /** The links derived from interface addresses between distinct devices of the network. */
  function SubnetLinks(snmp: map<Value, seq<Record>>, filtered: map<Value, Record>,
                       same: (Value, Value) -> Option<bool>): set<(Value, Value)> {
    set d, o | d in filtered && o in LinkedFrom(snmp, filtered, d, same) :: (d, o)
  }

  /** The topology `generate_topology` returns, with `same` as its subnet test: `None` when the
      network has no device or the subnet test raises. */
  function Generated(devices: map<Value, Record>, conns: seq<(Value, Value)>, snmp: map<Value, seq<Record>>,
                     networkName: string, same: (Value, Value) -> Option<bool>): Option<Topology> {
    var filtered := NetworkDevices(devices, networkName);
    if filtered == map[] || Raises(snmp, filtered, same) then None
    else Some(Topology(NodesOf(filtered), EdgesOf(InternalConnections(conns, filtered) + SubnetLinks(snmp, filtered, same))))
  }

  // ---------------------------------------------------------------------------------------------
  // Properties of the declarative topology

  /** A network without devices has no topology. */
  lemma NoDevicesNoTopology(devices: map<Value, Record>, conns: seq<(Value, Value)>, snmp: map<Value, seq<Record>>,
                            networkName: string, same: (Value, Value) -> Option<bool>)
    requires forall k :: k in devices ==> Get(devices[k], "network_name") != VStr(networkName)
    ensures Generated(devices, conns, snmp, networkName, same) == None
  {
  }

  /** The nodes are exactly the network's devices, each labelled with its name and address. */
  lemma NodesAreNetworkDevices(devices: map<Value, Record>, conns: seq<(Value, Value)>, snmp: map<Value, seq<Record>>,
                               networkName: string, same: (Value, Value) -> Option<bool>, k: Value)
    requires Generated(devices, conns, snmp, networkName, same).Some?
    ensures var t := Generated(devices, conns, snmp, networkName, same).value;
      (k in t.nodes <==> k in devices && Get(devices[k], "network_name") == VStr(networkName)) &&
      (k in t.nodes ==> t.nodes[k] == NodeAttrs(Get(devices[k], "device_name"), Get(devices[k], "ip")))
  {
  }

  /** Every edge joins one or two nodes of the graph. */
  lemma EdgesJoinNodes(devices: map<Value, Record>, conns: seq<(Value, Value)>, snmp: map<Value, seq<Record>>,
                       networkName: string, same: (Value, Value) -> Option<bool>, e: set<Value>)
    requires Generated(devices, conns, snmp, networkName, same).Some?
    requires e in Generated(devices, conns, snmp, networkName, same).value.edges
    ensures var t := Generated(devices, conns, snmp, networkName, same).value;
      e != {} && e <= t.nodes.Keys
  {
    var filtered := NetworkDevices(devices, networkName);
    var p :| p in InternalConnections(conns, filtered) + SubnetLinks(snmp, filtered, same) && e == {p.0, p.1};
    assert p.0 in e;
    assert p.0 in filtered && p.1 in filtered;
  }

  /** An explicit connection is an edge exactly when both of its endpoints belong to the network. */
  lemma ConnectionEdgeIff(devices: map<Value, Record>, conns: seq<(Value, Value)>, snmp: map<Value, seq<Record>>,
                          networkName: string, same: (Value, Value) -> Option<bool>, c: (Value, Value))
    requires Generated(devices, conns, snmp, networkName, same).Some?
    requires c in conns
    ensures (c.0 in devices && Get(devices[c.0], "network_name") == VStr(networkName) &&
             c.1 in devices && Get(devices[c.1], "network_name") == VStr(networkName))
        <==> {c.0, c.1} in Generated(devices, conns, snmp, networkName, same).value.edges
  {
    var filtered := NetworkDevices(devices, networkName);
    var t := Generated(devices, conns, snmp, networkName, same).value;
    if {c.0, c.1} in t.edges {
      EdgesJoinNodes(devices, conns, snmp, networkName, same, {c.0, c.1});
      assert c.0 in t.nodes.Keys && c.1 in t.nodes.Keys;
    }
    if Internal(filtered, c) {
      assert c in InternalConnections(conns, filtered);
    }
  }

  /** A one-endpoint edge (a self-loop) only comes from an explicit connection of a device to
      itself: the address rule never joins a device to itself. */
  lemma SelfLoopsAreExplicit(devices: map<Value, Record>, conns: seq<(Value, Value)>, snmp: map<Value, seq<Record>>,
                             networkName: string, same: (Value, Value) -> Option<bool>, a: Value)
    requires Generated(devices, conns, snmp, networkName, same).Some?
    requires {a} in Generated(devices, conns, snmp, networkName, same).value.edges
    ensures (a, a) in conns
  {
    var filtered := NetworkDevices(devices, networkName);
    var p :| p in InternalConnections(conns, filtered) + SubnetLinks(snmp, filtered, same) && {a} == {p.0, p.1};
    assert p.0 in {a} && p.1 in {a};
  }

  /** With the corrected test, two distinct devices of the network are linked when an address of
      one and an address of the other lie in the same /30 network and the scan does not raise. */
  lemma CorrectedLinksSameNetwork(snmp: map<Value, seq<Record>>, filtered: map<Value, Record>, d: Value, o: Value,
                                  parse: Value -> Option<nat>, i: int, j: int)
    requires d in filtered && o in filtered && d != o
    requires 0 <= i < |InterfacesOf(snmp, d)| && PyTruthy(AddressOf(InterfacesOf(snmp, d)[i]))
    requires 0 <= j < |InterfacesOf(snmp, o)| && PyTruthy(AddressOf(InterfacesOf(snmp, o)[j]))
    requires parse(AddressOf(InterfacesOf(snmp, d)[i])).Some? && parse(AddressOf(InterfacesOf(snmp, o)[j])).Some?
    requires parse(AddressOf(InterfacesOf(snmp, d)[i])).value / 4 == parse(AddressOf(InterfacesOf(snmp, o)[j])).value / 4
    ensures (d, o) in SubnetLinks(snmp, filtered, (x, y) => AreIpsInSameSubnet(x, y, parse))
  {
    var same := (x, y) => AreIpsInSameSubnet(x, y, parse);
    var x, y := AddressOf(InterfacesOf(snmp, d)[i]), AddressOf(InterfacesOf(snmp, o)[j]);
    assert same(x, y) == Some(true);
    assert LinksAt(x, InterfacesOf(snmp, o), same);
    assert o in LinkedFrom(snmp, filtered, d, same);
  }

  /** With the corrected test, linked devices have addresses in a common /30 network. */
  lemma CorrectedLinkedShareNetwork(snmp: map<Value, seq<Record>>, filtered: map<Value, Record>, d: Value, o: Value,
                                    parse: Value -> Option<nat>)
    requires (d, o) in SubnetLinks(snmp, filtered, (x, y) => AreIpsInSameSubnet(x, y, parse))
    ensures d != o && exists i, j :: (0 <= i < |InterfacesOf(snmp, d)| && 0 <= j < |InterfacesOf(snmp, o)| &&
      parse(AddressOf(InterfacesOf(snmp, d)[i])).Some? && parse(AddressOf(InterfacesOf(snmp, o)[j])).Some? &&
      parse(AddressOf(InterfacesOf(snmp, d)[i])).value / 4 == parse(AddressOf(InterfacesOf(snmp, o)[j])).value / 4)
  {
    var same := (x, y) => AreIpsInSameSubnet(x, y, parse);
    var ds, os := InterfacesOf(snmp, d), InterfacesOf(snmp, o);
    assert o in LinkedFrom(snmp, filtered, d, same);
    var i :| 0 <= i < |ds| && PyTruthy(AddressOf(ds[i])) && LinksAt(AddressOf(ds[i]), os, same);
    var j :| 0 <= j < |os| && PyTruthy(AddressOf(os[j])) && same(AddressOf(ds[i]), AddressOf(os[j])) == Some(true);
    assert AreIpsInSameSubnet(AddressOf(ds[i]), AddressOf(os[j]), parse) == Some(true);
  }

  /** With the test as written, when the scan does not raise, any two distinct devices of the
      network that both have an interface address are linked. */
  lemma AsWrittenLinksAllAddressed(snmp: map<Value, seq<Record>>, filtered: map<Value, Record>, d: Value, o: Value,
                                   parse: Value -> Option<nat>, i: int, j: int)
    requires !Raises(snmp, filtered, (x, y) => AreIpsInSameSubnetAsWritten(x, y, parse))
    requires d in filtered && o in filtered && d != o
    requires 0 <= i < |InterfacesOf(snmp, d)| && PyTruthy(AddressOf(InterfacesOf(snmp, d)[i]))
    requires 0 <= j < |InterfacesOf(snmp, o)| && PyTruthy(AddressOf(InterfacesOf(snmp, o)[j]))
    ensures (d, o) in SubnetLinks(snmp, filtered, (x, y) => AreIpsInSameSubnetAsWritten(x, y, parse))
  {
    var same := (x, y) => AreIpsInSameSubnetAsWritten(x, y, parse);
    var x, y := AddressOf(InterfacesOf(snmp, d)[i]), AddressOf(InterfacesOf(snmp, o)[j]);
    assert same(x, y) == Some(true);
    assert LinksAt(x, InterfacesOf(snmp, o), same);
    assert o in LinkedFrom(snmp, filtered, d, same);
  }

  // ---------------------------------------------------------------------------------------------
  // The scan, as the source runs it

  /** The innermost scan: the interfaces of another device, tested against the address `x`.
      `ok` is false when the test raises. */
  method ScanOther(x: Value, ys: seq<Record>, same: (Value, Value) -> Option<bool>) returns (ok: bool, linked: bool)
    ensures !ok ==> RaisesAt(x, ys, same)
    ensures ok ==> !RaisesAt(x, ys, same)
    ensures ok ==> (linked <==> LinksAt(x, ys, same))
  {
    linked := false;
    var j := 0;
    while j < |ys|
      invariant 0 <= j <= |ys|
      invariant forall j' :: 0 <= j' < j && PyTruthy(AddressOf(ys[j'])) ==> same(x, AddressOf(ys[j'])).Some?
      invariant linked <==> exists j' :: 0 <= j' < j && PyTruthy(AddressOf(ys[j'])) && same(x, AddressOf(ys[j'])) == Some(true)
    {
      var y := AddressOf(ys[j]);
      if PyTruthy(y) {
        var r := same(x, y);
        if r.None? {
          return false, linked;
        }
        if r.value {
          linked := true;
        }
      }
      j := j + 1;
    }
    ok := true;
  }

  /** The scan of the other devices of the network for one address `x` of device `d`. */
  method ScanAddress(snmp: map<Value, seq<Record>>, filtered: map<Value, Record>, d: Value, x: Value,
                     same: (Value, Value) -> Option<bool>) returns (ok: bool, others: set<Value>)
    ensures !ok ==> RaisesFrom(snmp, filtered, d, x, same)
    ensures ok ==> !RaisesFrom(snmp, filtered, d, x, same)
    ensures ok ==> others == set o | o in filtered && o != d && LinksAt(x, InterfacesOf(snmp, o), same)
  {
    others := {};
    var todo := filtered.Keys;
    ghost var done: set<Value> := {};
    while todo != {}
      invariant todo <= filtered.Keys && done == filtered.Keys - todo
      invariant forall o :: o in done && o != d ==> !RaisesAt(x, InterfacesOf(snmp, o), same)
      invariant forall o :: o in others <==> o in done && o != d && LinksAt(x, InterfacesOf(snmp, o), same)
      decreases todo
    {
      var o :| o in todo;
      if o != d {
        var okOther, linked := ScanOther(x, InterfacesOf(snmp, o), same);
        if !okOther {
          assert o in filtered && o != d && RaisesAt(x, InterfacesOf(snmp, o), same);
          return false, others;
        }
        if linked {
          others := others + {o};
        }
      }
      todo := todo - {o};
      done := done + {o};
    }
    ok := true;
  }

  /** The scan of every interface address of one device `d` of the network. */
  method ScanDevice(snmp: map<Value, seq<Record>>, filtered: map<Value, Record>, d: Value,
                    same: (Value, Value) -> Option<bool>) returns (ok: bool, others: set<Value>)
    ensures !ok ==> DeviceRaises(snmp, filtered, d, same)
    ensures ok ==> !DeviceRaises(snmp, filtered, d, same)
    ensures ok ==> others == LinkedFrom(snmp, filtered, d, same)
  {
    var ifaces := InterfacesOf(snmp, d);
    others := {};
    var i := 0;
    while i < |ifaces|
      invariant 0 <= i <= |ifaces|
      invariant forall i' :: 0 <= i' < i && PyTruthy(AddressOf(ifaces[i'])) ==> !RaisesFrom(snmp, filtered, d, AddressOf(ifaces[i']), same)
      invariant others == set o | o in filtered && o != d &&
        exists i' :: 0 <= i' < i && PyTruthy(AddressOf(ifaces[i'])) && LinksAt(AddressOf(ifaces[i']), InterfacesOf(snmp, o), same)
    {
      var x := AddressOf(ifaces[i]);
      if PyTruthy(x) {
        var okAddress, more := ScanAddress(snmp, filtered, d, x, same);
        if !okAddress {
          assert PyTruthy(AddressOf(ifaces[i])) && RaisesFrom(snmp, filtered, d, AddressOf(ifaces[i]), same);
          return false, others;
        }
        others := others + more;
      }
      i := i + 1;
    }
    ok := true;
  }

  /** The outer scan, over the devices that have SNMP data, of the network's devices. */
  method ScanAll(snmp: map<Value, seq<Record>>, filtered: map<Value, Record>, same: (Value, Value) -> Option<bool>)
    returns (ok: bool, links: set<(Value, Value)>)
    ensures !ok ==> Raises(snmp, filtered, same)
    ensures ok ==> !Raises(snmp, filtered, same)
    ensures ok ==> links == SubnetLinks(snmp, filtered, same)
  {
    links := {};
    var todo := snmp.Keys;
    while todo != {}
      invariant todo <= snmp.Keys
      invariant forall d :: d in filtered && d !in todo ==> !DeviceRaises(snmp, filtered, d, same)
      invariant forall p :: p in links <==> p.0 in filtered && p.0 !in todo && p.1 in LinkedFrom(snmp, filtered, p.0, same)
      decreases todo
    {
      var d :| d in todo;
      if d in filtered {
        var okDevice, others := ScanDevice(snmp, filtered, d, same);
        if !okDevice {
          return false, links;
        }
        links := links + set o | o in others :: (d, o);
      }
      todo := todo - {d};
    }
    ok := true;
  }

  /** `generate_topology`, with `same` as its subnet test: proved to build the declarative
      topology, or to fail exactly when that is `None`. */
  method GenerateTopology(registry: Registry, networkName: string, same: (Value, Value) -> Option<bool>)
    returns (r: Option<Topology>)
    ensures r == Generated(registry.devices, registry.ne_connections, registry.devices_snmp, networkName, same)
  {
    var filtered := NetworkDevices(registry.devices, networkName);
    var filteredConnections := Filter(registry.ne_connections, (c: (Value, Value)) => Internal(filtered, c));
    if filtered == map[] {
      return None;
    }
    var nodes: map<Value, NodeAttrs> := map[];
    var todo := filtered.Keys;
    while todo != {}
      invariant todo <= filtered.Keys
      invariant nodes.Keys == filtered.Keys - todo
      invariant forall k :: k in nodes ==> nodes[k] == NodeAttrs(Get(filtered[k], "device_name"), Get(filtered[k], "ip"))
      decreases todo
    {
      var k :| k in todo;
      nodes := nodes[k := NodeAttrs(Get(filtered[k], "device_name"), Get(filtered[k], "ip"))];
      todo := todo - {k};
    }
    assert nodes == NodesOf(filtered);
    var links: set<(Value, Value)> := {};
    for j := 0 to |filteredConnections|
      invariant links == set c | c in filteredConnections[..j]
    {
      assert filteredConnections[..j + 1] == filteredConnections[..j] + [filteredConnections[j]];
      links := links + {filteredConnections[j]};
    }
    assert filteredConnections[..|filteredConnections|] == filteredConnections;
    assert links == InternalConnections(registry.ne_connections, filtered);
    var ok, subnet := ScanAll(registry.devices_snmp, filtered, same);
    if !ok {
      return None;
    }
    r := Some(Topology(nodes, EdgesOf(links + subnet)));
  }

  /** `update_topo_data`: a generated topology replaces the `nodes` and `edges` entries of the
      topology data; when generation fails nothing changes. The subnet test is the corrected one. */
  method UpdateTopoData(registry: Registry, networkName: string, parse: Value -> Option<nat>)
    modifies registry
    ensures var g := Generated(old(registry.devices), old(registry.ne_connections), old(registry.devices_snmp),
                               networkName, (x, y) => AreIpsInSameSubnet(x, y, parse));
      registry.topo_data == (if g.None? then old(registry.topo_data)
                             else old(registry.topo_data)["nodes" := Nodes(g.value.nodes)]["edges" := Edges(g.value.edges)])
    ensures registry.devices == old(registry.devices) && registry.ne_connections == old(registry.ne_connections)
    ensures registry.devices_snmp == old(registry.devices_snmp)
    ensures old(registry.Valid()) ==> registry.Valid()
  {
    var newTopology := GenerateTopology(registry, networkName, (x, y) => AreIpsInSameSubnet(x, y, parse));
    if newTopology.Some? {
      registry.topo_data := registry.topo_data["nodes" := Nodes(newTopology.value.nodes)];
      registry.topo_data := registry.topo_data["edges" := Edges(newTopology.value.edges)];
    }
  }
}
