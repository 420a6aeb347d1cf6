/** The backend's in-memory registry shared by its request handlers: the known devices keyed
    by name, the neighbour connections found so far, the SNMP data of each device and the
    current topology. Python dict keys are Values; a dict's insertion order is not kept,
    since no operation modelled against this registry depends on it. */
module Registry {
  import opened Common

  /** The attributes a topology node carries (`label` and `ip`). */
  datatype NodeAttrs = NodeAttrs(nodeLabel: Value, ip: Value)

  /** A value of `topo_data`: one loaded from a stored document, or the node set or edge set of
      a generated topology (an edge is the set of its one or two endpoints). */
  datatype TopoEntry =
    | Stored(v: Value)
    | Nodes(nodes: map<Value, NodeAttrs>)
    | Edges(edges: set<set<Value>>)

  /** Successive `d[key] = value` assignments, in order. */
  function Assign<K, V>(m: map<K, V>, ps: seq<(K, V)>): map<K, V>
    decreases |ps|
  {
    if |ps| == 0 then m else Assign(m, ps[..|ps| - 1])[ps[|ps| - 1].0 := ps[|ps| - 1].1]
  }

  lemma {:induction false} AssignConcat<K, V>(m: map<K, V>, a: seq<(K, V)>, b: seq<(K, V)>)
    ensures Assign(m, a + b) == Assign(Assign(m, a), b)
    decreases |b|
  {
    if |b| == 0 {
      assert a + b == a;
    } else {
      assert (a + b)[..|a + b| - 1] == a + b[..|b| - 1];
      AssignConcat(m, a, b[..|b| - 1]);
    }
  }

  /** After the assignments a key is present exactly when it was, or some assignment used it. */
  lemma {:induction false} AssignKeys<K, V>(m: map<K, V>, ps: seq<(K, V)>, k: K)
    ensures k in Assign(m, ps) <==> k in m || exists i :: 0 <= i < |ps| && ps[i].0 == k
    decreases |ps|
  {
    if |ps| > 0 {
      var init := ps[..|ps| - 1];
      AssignKeys(m, init, k);
      assert forall i :: 0 <= i < |init| ==> init[i] == ps[i];
    }
  }

  /** The last assignment to a key decides its value. */
  lemma {:induction false} AssignLast<K, V>(m: map<K, V>, ps: seq<(K, V)>, i: int)
    requires 0 <= i < |ps|
    requires forall j :: i < j < |ps| ==> ps[j].0 != ps[i].0
    ensures ps[i].0 in Assign(m, ps) && Assign(m, ps)[ps[i].0] == ps[i].1
    decreases |ps|
  {
    if i < |ps| - 1 {
      var init := ps[..|ps| - 1];
      assert forall j :: i < j < |init| ==> init[j] == ps[j];
      AssignLast(m, init, i);
    }
  }

  /** Every value after the assignments was already there or was assigned. */
  lemma {:induction false} AssignValues<K, V>(m: map<K, V>, ps: seq<(K, V)>, k: K)
    requires k in Assign(m, ps)
    ensures (k in m && Assign(m, ps)[k] == m[k]) || exists i :: 0 <= i < |ps| && ps[i] == (k, Assign(m, ps)[k])
    decreases |ps|
  {
    if |ps| > 0 && ps[|ps| - 1].0 != k {
      var init := ps[..|ps| - 1];
      AssignValues(m, init, k);
      assert forall i :: 0 <= i < |init| ==> init[i] == ps[i];
    }
  }

  /** The registry of `global_data`: the devices, the neighbour connections (as pairs of device
      names), the SNMP interface list of each device (an absent `Interfaces` entry is the empty
      list) and the topology data. */
  class Registry {
    var devices: map<Value, Record>
    var ne_connections: seq<(Value, Value)>
    var devices_snmp: map<Value, seq<Record>>
    var topo_data: map<string, TopoEntry>

    constructor ()
      ensures devices == map[] && ne_connections == [] && devices_snmp == map[] && topo_data == map[]
    {
      devices := map[];
      ne_connections := [];
      devices_snmp := map[];
      topo_data := map[];
    }

    /** Every registered device carries an `ip` entry, so scans over `d['ip']` never raise. */
    predicate Valid()
      reads this
    {
      forall k :: k in devices ==> "ip" in devices[k]
    }
  }
}
