/** Loading one stored network document into the in-memory registry: the devices are
    rebuilt from the elements of its sites and the topology data is replaced by the
    document's. */
module NetworkLoad {
  import opened Common
  import opened NetworkModel
  import opened Registry

  /** The registry key of a stored element: its `ne_name`, or "" when it has none. */
  function LoadKey(element: Record): Value {
    if "ne_name" in element then element["ne_name"] else VStr("")
  }

  /** The registry device rebuilt from a stored element of a site: the stored names are mapped
      back, missing fields are `None`, and the device starts `offline` in its site. */
  function LoadedDevice(element: Record, site: SiteDoc): (d: Record)
    ensures "status" in d && d["status"] == VStr("offline")
  {
    map[
      "gne" := Get(element, "gne"),
      "ip" := Get(element, "ne_ip"),
      "ne_id" := Get(element, "ne_id"),
      "device_type" := Get(element, "ne_make"),
      "device_name" := Get(element, "ne_name"),
      "site_name" := VStr(site.site_name),
      "site_id" := VStr(site.site_id),
      "status" := VStr("offline"),
      "snmp_auth_password" := Get(element, "snmp_auth_password"),
      "snmp_auth_protocol" := Get(element, "snmp_auth_protocol"),
      "snmp_priv_password" := Get(element, "snmp_priv_password"),
      "snmp_priv_protocol" := Get(element, "snmp_priv_protocol"),
      "ssh_password" := Get(element, "ssh_password"),
      "ssh_username" := Get(element, "ssh_username")]
  }

  /** The keys of a loaded device. */
  const LoadedKeys: set<string> := {"gne", "ip", "ne_id", "device_type", "device_name", "site_name", "site_id",
    "status", "snmp_auth_password", "snmp_auth_protocol", "snmp_priv_password", "snmp_priv_protocol",
    "ssh_password", "ssh_username"}

  lemma LoadedDeviceKeys(element: Record, site: SiteDoc)
    ensures LoadedDevice(element, site).Keys == LoadedKeys
  {
  }

  /** A loaded device names its site and carries the element's identity under the registry's names. */
  lemma LoadedDeviceSite(element: Record, site: SiteDoc)
    ensures Get(LoadedDevice(element, site), "site_name") == VStr(site.site_name)
    ensures Get(LoadedDevice(element, site), "site_id") == VStr(site.site_id)
    ensures Get(LoadedDevice(element, site), "ne_id") == Get(element, "ne_id")
  {
  }

  lemma LoadedDeviceIdentity(element: Record, site: SiteDoc)
    ensures Get(LoadedDevice(element, site), "gne") == Get(element, "gne")
    ensures Get(LoadedDevice(element, site), "ip") == Get(element, "ne_ip")
    ensures Get(LoadedDevice(element, site), "device_type") == Get(element, "ne_make")
    ensures Get(LoadedDevice(element, site), "device_name") == Get(element, "ne_name")
  {
  }

  lemma LoadedDeviceSsh(element: Record, site: SiteDoc)
    ensures Get(LoadedDevice(element, site), "ssh_username") == Get(element, "ssh_username")
    ensures Get(LoadedDevice(element, site), "ssh_password") == Get(element, "ssh_password")
  {
  }

  lemma LoadedDeviceSnmp(element: Record, site: SiteDoc)
    ensures Get(LoadedDevice(element, site), "snmp_auth_password") == Get(element, "snmp_auth_password")
    ensures Get(LoadedDevice(element, site), "snmp_auth_protocol") == Get(element, "snmp_auth_protocol")
    ensures Get(LoadedDevice(element, site), "snmp_priv_password") == Get(element, "snmp_priv_password")
    ensures Get(LoadedDevice(element, site), "snmp_priv_protocol") == Get(element, "snmp_priv_protocol")
  {
  }

  /** The assignments one site makes, in element order. */
  function SiteEntries(site: SiteDoc): (r: seq<(Value, Record)>)
    ensures |r| == |site.elements|
    ensures forall k :: 0 <= k < |r| ==> r[k] == (LoadKey(site.elements[k]), LoadedDevice(site.elements[k], site))
  {
    seq(|site.elements|, k requires 0 <= k < |site.elements| =>
      (LoadKey(site.elements[k]), LoadedDevice(site.elements[k], site)))
  }

  /** The assignments of the whole load, site after site. */
  function LoadEntries(sites: seq<SiteDoc>): seq<(Value, Record)>
    decreases |sites|
  {
    if |sites| == 0 then [] else LoadEntries(sites[..|sites| - 1]) + SiteEntries(sites[|sites| - 1])
  }

  /** Every assignment of the load comes from an element of one of the sites. */
  lemma {:induction false} LoadEntriesFromSites(sites: seq<SiteDoc>, i: int)
    requires 0 <= i < |LoadEntries(sites)|
    ensures exists j, k :: (0 <= j < |sites| && 0 <= k < |sites[j].elements| &&
      LoadEntries(sites)[i] == (LoadKey(sites[j].elements[k]), LoadedDevice(sites[j].elements[k], sites[j])))
    decreases |sites|
  {
    var init := sites[..|sites| - 1];
    var last := |sites| - 1;
    if i < |LoadEntries(init)| {
      LoadEntriesFromSites(init, i);
      var j, k :| 0 <= j < |init| && 0 <= k < |init[j].elements| &&
        LoadEntries(init)[i] == (LoadKey(init[j].elements[k]), LoadedDevice(init[j].elements[k], init[j]));
      assert init[j] == sites[j];
    } else {
      var k := i - |LoadEntries(init)|;
      assert LoadEntries(sites)[i] == SiteEntries(sites[last])[k];
    }
  }

  /** Every element of every site is assigned by the load. */
  lemma {:induction false} LoadEntriesCoverSites(sites: seq<SiteDoc>, j: int, k: int)
    requires 0 <= j < |sites| && 0 <= k < |sites[j].elements|
    ensures (LoadKey(sites[j].elements[k]), LoadedDevice(sites[j].elements[k], sites[j])) in LoadEntries(sites)
    decreases |sites|
  {
    var init := sites[..|sites| - 1];
    if j < |sites| - 1 {
      assert init[j] == sites[j];
      LoadEntriesCoverSites(init, j, k);
    } else {
      assert SiteEntries(sites[j])[k] in SiteEntries(sites[j]);
    }
  }

  /** The devices a load builds: the site elements' stored devices, later ones replacing earlier
      ones of the same name. */
  function LoadedDevices(sites: seq<SiteDoc>): map<Value, Record> {
    Assign(map[], LoadEntries(sites))
  }

  /** A name is loaded exactly when some element of some site has it; root elements do not count. */
  lemma LoadedDevicesKeys(sites: seq<SiteDoc>, key: Value)
    ensures key in LoadedDevices(sites) <==>
      exists j, k :: 0 <= j < |sites| && 0 <= k < |sites[j].elements| && LoadKey(sites[j].elements[k]) == key
  {
    AssignKeys(map[], LoadEntries(sites), key);
    if key in LoadedDevices(sites) {
      var i :| 0 <= i < |LoadEntries(sites)| && LoadEntries(sites)[i].0 == key;
      LoadEntriesFromSites(sites, i);
    }
    if exists j, k :: 0 <= j < |sites| && 0 <= k < |sites[j].elements| && LoadKey(sites[j].elements[k]) == key {
      var j, k :| 0 <= j < |sites| && 0 <= k < |sites[j].elements| && LoadKey(sites[j].elements[k]) == key;
      LoadEntriesCoverSites(sites, j, k);
    }
  }

  /** Every loaded device is the stored device of some site element of its name; in particular
      it is `offline` and belongs to that element's site. */
  lemma LoadedDevicesFromElements(sites: seq<SiteDoc>, key: Value)
    requires key in LoadedDevices(sites)
    ensures exists j, k :: (0 <= j < |sites| && 0 <= k < |sites[j].elements| &&
      LoadKey(sites[j].elements[k]) == key && LoadedDevices(sites)[key] == LoadedDevice(sites[j].elements[k], sites[j]))
    ensures LoadedDevices(sites)[key]["status"] == VStr("offline")
  {
    AssignValues(map[], LoadEntries(sites), key);
    var i :| 0 <= i < |LoadEntries(sites)| && LoadEntries(sites)[i] == (key, LoadedDevices(sites)[key]);
    LoadEntriesFromSites(sites, i);
  }

  /** Every loaded device has an `ip` entry, so a load leaves the registry valid. */
  lemma LoadedDevicesHaveIp(sites: seq<SiteDoc>)
    ensures forall key :: key in LoadedDevices(sites) ==> "ip" in LoadedDevices(sites)[key]
  {
    forall key | key in LoadedDevices(sites)
      ensures "ip" in LoadedDevices(sites)[key]
    {
      LoadedDevicesFromElements(sites, key);
    }
  }

  /** The element at position `k` of site `j` is the last one loaded under its name: no later
      element of that site, and no element of a later site, has the same name. */
  predicate LastWithKey(sites: seq<SiteDoc>, j: int, k: int) {
    0 <= j < |sites| && 0 <= k < |sites[j].elements| &&
    (forall k' :: k < k' < |sites[j].elements| ==>
      LoadKey(sites[j].elements[k']) != LoadKey(sites[j].elements[k])) &&
    (forall j', k' :: j < j' < |sites| && 0 <= k' < |sites[j'].elements| ==>
      LoadKey(sites[j'].elements[k']) != LoadKey(sites[j].elements[k]))
  }

  /** The device stored under a name is the one built from the last element of that name, in
      site order and then element order. */
  lemma {:induction false} LoadedDevicesLastWins(sites: seq<SiteDoc>, j: int, k: int)
    requires LastWithKey(sites, j, k)
    ensures var e := sites[j].elements[k];
      LoadKey(e) in LoadedDevices(sites) && LoadedDevices(sites)[LoadKey(e)] == LoadedDevice(e, sites[j])
    decreases |sites|
  {
    var init := sites[..|sites| - 1];
    var last := sites[|sites| - 1];
    var key := LoadKey(sites[j].elements[k]);
    AssignConcat(map[], LoadEntries(init), SiteEntries(last));
    assert LoadedDevices(sites) == Assign(LoadedDevices(init), SiteEntries(last));
    if j == |sites| - 1 {
      AssignLast(LoadedDevices(init), SiteEntries(last), k);
    } else {
      assert init[j] == sites[j];
      assert forall j' :: j < j' < |init| ==> init[j'] == sites[j'];
      LoadedDevicesLastWins(init, j, k);
      AssignKeys(LoadedDevices(init), SiteEntries(last), key);
      AssignValues(LoadedDevices(init), SiteEntries(last), key);
    }
  }

  /** Loading a device stored by `convert_device_to_db_format` gives back its gateway, address,
      type, name and SSH user and password (`None` where the device had none). */
  lemma RoundTripIdentity(device: Record, neId: string, site: SiteDoc)
    ensures var d := LoadedDevice(DbFormat(device, neId), site);
      Get(d, "gne") == Get(device, "gne") && Get(d, "ip") == Get(device, "ip") &&
      Get(d, "device_type") == Get(device, "device_type") && Get(d, "device_name") == Get(device, "device_name") &&
      Get(d, "ssh_username") == Get(device, "ssh_username") && Get(d, "ssh_password") == Get(device, "ssh_password")
  {
    LoadedDeviceIdentity(DbFormat(device, neId), site);
    LoadedDeviceSsh(DbFormat(device, neId), site);
    DbFormatStoredAt(device, neId, 0);
    DbFormatStoredAt(device, neId, 1);
    DbFormatStoredAt(device, neId, 2);
    DbFormatStoredAt(device, neId, 3);
    DbFormatStoredAt(device, neId, 4);
    DbFormatStoredAt(device, neId, 5);
  }

  /** … and its four SNMP protocol and password settings. */
  lemma RoundTripSnmp(device: Record, neId: string, site: SiteDoc)
    ensures var d := LoadedDevice(DbFormat(device, neId), site);
      Get(d, "snmp_auth_password") == Get(device, "snmp_auth_password") &&
      Get(d, "snmp_auth_protocol") == Get(device, "snmp_auth_protocol") &&
      Get(d, "snmp_priv_password") == Get(device, "snmp_priv_password") &&
      Get(d, "snmp_priv_protocol") == Get(device, "snmp_priv_protocol")
  {
    LoadedDeviceSnmp(DbFormat(device, neId), site);
    DbFormatStoredAt(device, neId, 8);
    DbFormatStoredAt(device, neId, 9);
    DbFormatStoredAt(device, neId, 10);
    DbFormatStoredAt(device, neId, 11);
  }

  /** The SNMP user name and the enable secret do not survive the round trip: the loaded device
      has neither key, whatever the stored device had. */
  lemma RoundTripLoses(device: Record, neId: string, site: SiteDoc)
    ensures "snmp_username" !in LoadedDevice(DbFormat(device, neId), site)
    ensures "ssh_secret" !in LoadedDevice(DbFormat(device, neId), site)
  {
    LoadedDeviceKeys(DbFormat(device, neId), site);
  }

  /** Loading one more site assigns that site's entries over the devices loaded so far. */
  lemma LoadedDevicesStep(sites: seq<SiteDoc>, j: int)
    requires 0 <= j < |sites|
    ensures LoadedDevices(sites[..j + 1]) == Assign(LoadedDevices(sites[..j]), SiteEntries(sites[j]))
  {
    assert sites[..j + 1][..j] == sites[..j];
    AssignConcat(map[], LoadEntries(sites[..j]), SiteEntries(sites[j]));
  }

  /** The inner loop of `load_data_from_db`: each element of one site is stored under its name. */
  method LoadSite(registry: Registry, site: SiteDoc)
    modifies registry
    ensures registry.devices == Assign(old(registry.devices), SiteEntries(site))
    ensures registry.topo_data == old(registry.topo_data) && registry.ne_connections == old(registry.ne_connections)
    ensures registry.devices_snmp == old(registry.devices_snmp)
  {
    var k := 0;
    while k < |site.elements|
      invariant 0 <= k <= |site.elements|
      invariant registry.devices == Assign(old(registry.devices), SiteEntries(site)[..k])
      invariant registry.topo_data == old(registry.topo_data) && registry.ne_connections == old(registry.ne_connections)
      invariant registry.devices_snmp == old(registry.devices_snmp)
    {
      var element := site.elements[k];
      assert SiteEntries(site)[..k + 1][..k] == SiteEntries(site)[..k];
      registry.devices := registry.devices[LoadKey(element) := LoadedDevice(element, site)];
      k := k + 1;
    }
    assert SiteEntries(site)[..k] == SiteEntries(site);
  }

  /** `load_data_from_db`: when a document has the id, the registry's devices are exactly the
      loaded site devices and its topology data exactly the document's, and the network's name
      and the id are returned; otherwise nothing changes and the answer is `False` (`None` here). */
  method LoadDataFromDb(db: NetworksCollection, registry: Registry, networkId: string)
    returns (r: Option<(string, string)>)
    modifies registry
    ensures var i := db.FindById(networkId);
      if i == -1 then
        r == None && registry.devices == old(registry.devices) && registry.topo_data == old(registry.topo_data)
      else
        r == Some((db.docs[i].network_name, networkId)) &&
        registry.devices == LoadedDevices(db.docs[i].sites) &&
        registry.topo_data == (map k | k in db.docs[i].topo_data :: Stored(db.docs[i].topo_data[k]))
    ensures registry.ne_connections == old(registry.ne_connections) && registry.devices_snmp == old(registry.devices_snmp)
    ensures db.FindById(networkId) != -1 ==> registry.Valid()
    ensures old(registry.Valid()) ==> registry.Valid()
  {
    var i := db.FindById(networkId);
    if i == -1 {
      return None;
    }
    var network := db.docs[i];
    registry.devices := map[];
    registry.topo_data := map[];
    var j := 0;
    while j < |network.sites|
      invariant 0 <= j <= |network.sites|
      invariant registry.devices == LoadedDevices(network.sites[..j])
      invariant registry.topo_data == map[]
      invariant registry.ne_connections == old(registry.ne_connections) && registry.devices_snmp == old(registry.devices_snmp)
    {
      LoadSite(registry, network.sites[j]);
      LoadedDevicesStep(network.sites, j);
      j := j + 1;
    }
    assert network.sites[..j] == network.sites;
    LoadedDevicesHaveIp(network.sites);
    var stored := network.topo_data;
    registry.topo_data := map k | k in stored :: Stored(stored[k]);
    return Some((network.network_name, networkId));
  }
}
