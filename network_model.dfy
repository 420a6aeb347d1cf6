/** The backend's `networks` document collection and the edits made to its documents:
    a network document holds its sites, each with a list of element records, and the
    network's root-level elements. The collection is a list in natural (insertion) order,
    so `find_one` is the first match and `insert_one` appends. */
module NetworkModel {
  import opened Common

  datatype SiteDoc = SiteDoc(site_id: string, site_name: string, elements: seq<Record>)

  /** A network document; `topo_data` is empty when the document has none. */
  datatype NetworkDoc = NetworkDoc(
    network_id: string,
    network_name: string,
    sites: seq<SiteDoc>,
    elements: seq<Record>,
    topo_data: Record)

  // ------------------------------------------------- convert_device_to_db_format

  /** The renaming applied when a registry device is stored: (device key, stored key), in order. */
  const KeyMapping: seq<(string, string)> := [
    ("device_name", "ne_name"),
    ("device_type", "ne_make"),
    ("ip", "ne_ip"),
    ("gne", "gne"),
    ("ssh_username", "ssh_username"),
    ("ssh_password", "ssh_password"),
    ("ssh_secret", ""),
    ("snmp_username", "snmp_username"),
    ("snmp_auth_password", "snmp_auth_password"),
    ("snmp_auth_protocol", "snmp_auth_protocol"),
    ("snmp_priv_password", "snmp_priv_password"),
    ("snmp_priv_protocol", "snmp_priv_protocol")]

  /** The stored keys are pairwise distinct and none of them is `ne_id`. */
  /** A renaming whose targets are pairwise distinct and never `ne_id`. */
  predicate DistinctTargets(mapping: seq<(string, string)>) {
    (forall a, b :: 0 <= a < b < |mapping| ==> mapping[a].1 != mapping[b].1) &&
    (forall a :: 0 <= a < |mapping| ==> mapping[a].1 != "ne_id")
  }

  /** A device renamed by `mapping` (each mapped key present in the device is copied under its
      target, in mapping order), carrying the fresh id under `ne_id`. */
  function Renamed(device: Record, mapping: seq<(string, string)>, neId: string): Record
    decreases |mapping|
  {
    if |mapping| == 0 then map["ne_id" := VStr(neId)]
    else
      var r := Renamed(device, mapping[..|mapping| - 1], neId);
      var (deviceKey, neKey) := mapping[|mapping| - 1];
      if deviceKey in device then r[neKey := device[deviceKey]] else r
  }

  /** A renamed device has exactly `ne_id` and the targets of the mapped keys the device has. */
  lemma {:induction false} RenamedKeys(device: Record, mapping: seq<(string, string)>, neId: string, k: string)
    ensures k in Renamed(device, mapping, neId) <==>
      k == "ne_id" || exists j :: 0 <= j < |mapping| && mapping[j].1 == k && mapping[j].0 in device
    decreases |mapping|
  {
    if |mapping| > 0 {
      var init := mapping[..|mapping| - 1];
      RenamedKeys(device, init, neId, k);
      assert forall j :: 0 <= j < |init| ==> init[j] == mapping[j];
    }
  }

  /** With distinct targets, every mapped key the device has is copied unchanged, and `ne_id` holds the id. */
  lemma {:induction false} RenamedValues(device: Record, mapping: seq<(string, string)>, neId: string)
    requires DistinctTargets(mapping)
    ensures "ne_id" in Renamed(device, mapping, neId) && Renamed(device, mapping, neId)["ne_id"] == VStr(neId)
    ensures forall j :: 0 <= j < |mapping| && mapping[j].0 in device ==>
      mapping[j].1 in Renamed(device, mapping, neId) && Renamed(device, mapping, neId)[mapping[j].1] == device[mapping[j].0]
    decreases |mapping|
  {
    if |mapping| > 0 {
      var init := mapping[..|mapping| - 1];
      assert forall j :: 0 <= j < |init| ==> init[j] == mapping[j];
      RenamedValues(device, init, neId);
    }
  }

  /** The stored form of a device. */
  function DbFormat(device: Record, neId: string): Record {
    Renamed(device, KeyMapping, neId)
  }

  /** The stored keys are pairwise distinct and none of them is `ne_id`. */
  lemma StoredKeysDistinct()
    ensures DistinctTargets(KeyMapping)
  {
  }

  /** A stored element has `ne_id` and the new name of each mapped key the device has, and nothing else. */
  lemma DbFormatKeys(device: Record, neId: string, k: string)
    ensures k in DbFormat(device, neId) <==>
      k == "ne_id" || exists j :: 0 <= j < |KeyMapping| && KeyMapping[j].1 == k && KeyMapping[j].0 in device
  {
    RenamedKeys(device, KeyMapping, neId, k);
  }

  /** Each mapped value is stored unchanged under its new key. */
  lemma DbFormatValues(device: Record, neId: string)
    ensures "ne_id" in DbFormat(device, neId) && DbFormat(device, neId)["ne_id"] == VStr(neId)
    ensures forall j :: 0 <= j < |KeyMapping| && KeyMapping[j].0 in device ==>
      KeyMapping[j].1 in DbFormat(device, neId) && DbFormat(device, neId)[KeyMapping[j].1] == device[KeyMapping[j].0]
  {
    StoredKeysDistinct();
    RenamedValues(device, KeyMapping, neId);
  }

  /** Each stored key holds its device key's value, and is absent exactly when that key is. */
  lemma DbFormatStoredAt(device: Record, neId: string, j: int)
    requires 0 <= j < |KeyMapping|
    ensures Prop(DbFormat(device, neId), KeyMapping[j].1) == Prop(device, KeyMapping[j].0)
    ensures Get(DbFormat(device, neId), KeyMapping[j].1) == Get(device, KeyMapping[j].0)
  {
    StoredKeysDistinct();
    DbFormatValues(device, neId);
    DbFormatKeys(device, neId, KeyMapping[j].1);
  }

  /** The renamed identity fields, present exactly when the device has them. */
  lemma DbFormatRenames(device: Record, neId: string)
    ensures Prop(DbFormat(device, neId), "ne_name") == Prop(device, "device_name")
    ensures Prop(DbFormat(device, neId), "ne_make") == Prop(device, "device_type")
    ensures Prop(DbFormat(device, neId), "ne_ip") == Prop(device, "ip")
    ensures Prop(DbFormat(device, neId), "gne") == Prop(device, "gne")
  {
    DbFormatStoredAt(device, neId, 0);
    DbFormatStoredAt(device, neId, 1);
    DbFormatStoredAt(device, neId, 2);
    DbFormatStoredAt(device, neId, 3);
  }

  /** The enable secret is stored under the empty key, never under `ssh_secret`. */
  lemma DbFormatSecret(device: Record, neId: string)
    ensures Prop(DbFormat(device, neId), "") == Prop(device, "ssh_secret")
    ensures "ssh_secret" !in DbFormat(device, neId)
  {
    DbFormatStoredAt(device, neId, 6);
    DbFormatKeys(device, neId, "ssh_secret");
    forall j | 0 <= j < |KeyMapping|
      ensures KeyMapping[j].1 != "ssh_secret"
    {
    }
  }

  /** The renaming loop of `convert_device_to_db_format`, over any renaming. */
  method Rename(device: Record, mapping: seq<(string, string)>, neId: string) returns (e: Record)
    ensures e == Renamed(device, mapping, neId)
  {
    e := map["ne_id" := VStr(neId)];
    var j := 0;
    while j < |mapping|
      invariant 0 <= j <= |mapping|
      invariant e == Renamed(device, mapping[..j], neId)
    {
      var (deviceKey, neKey) := mapping[j];
      assert mapping[..j + 1][..j] == mapping[..j];
      if deviceKey in device {
        e := e[neKey := device[deviceKey]];
      }
      j := j + 1;
    }
    assert mapping[..j] == mapping;
  }

  /** `convert_device_to_db_format`: `neId` is the fresh `ObjectId` string. */
  method ConvertDeviceToDbFormat(device: Record, neId: string) returns (e: Record)
    ensures e == DbFormat(device, neId)
  {
    e := Rename(device, KeyMapping, neId);
  }

  // ------------------------------------------------------------ document edits

  /** An element record created by `create_network`: a fresh id and a name. */
  function NewElement(id: string, name: string): Record {
    map["ne_id" := VStr(id), "ne_name" := VStr(name)]
  }

  /** `'ne_name' in element and element['ne_name'] == ne_name`. */
  predicate HasName(element: Record, neName: string) {
    "ne_name" in element && element["ne_name"] == VStr(neName)
  }

  /** The first site of a list with the given name, or -1. */
  function FirstSiteNamed(sites: seq<SiteDoc>, name: string): (j: int)
    ensures -1 <= j < |sites|
    ensures j == -1 <==> forall k :: 0 <= k < |sites| ==> sites[k].site_name != name
    ensures 0 <= j ==> sites[j].site_name == name && forall k :: 0 <= k < j ==> sites[k].site_name != name
  {
    FindIndex(sites, (s: SiteDoc) => s.site_name == name)
  }

  /** The sites left by `delete_site_from_network`: every site of another name, in order. */
  function SitesWithout(sites: seq<SiteDoc>, name: string): (r: seq<SiteDoc>)
    ensures forall k :: 0 <= k < |r| ==> r[k] in sites && r[k].site_name != name
    ensures forall k :: 0 <= k < |sites| && sites[k].site_name != name ==> sites[k] in r
    ensures KeptInOrder(r, sites, (s: SiteDoc) => s.site_name != name)
  {
    FilterKeptInOrder(sites, (s: SiteDoc) => s.site_name != name);
    Filter(sites, (s: SiteDoc) => s.site_name != name)
  }

  /** An element after `update_ne_status`: `status` is set when the element has the name. */
  function WithStatus(element: Record, neName: string, status: string): (r: Record)
    ensures HasName(element, neName) ==> r == element["status" := VStr(status)]
    ensures !HasName(element, neName) ==> r == element
  {
    if HasName(element, neName) then element["status" := VStr(status)] else element
  }

  /** The sites after `update_ne_status`: in every site of the name, every element of the
      name gets the status; other sites and other elements are as they were. */
  function StatusUpdated(sites: seq<SiteDoc>, siteName: string, neName: string, status: string): (r: seq<SiteDoc>)
    ensures |r| == |sites|
    ensures forall j :: 0 <= j < |sites| && sites[j].site_name != siteName ==> r[j] == sites[j]
    ensures forall j :: 0 <= j < |sites| && sites[j].site_name == siteName ==>
      r[j].site_id == sites[j].site_id && r[j].site_name == siteName && |r[j].elements| == |sites[j].elements| &&
      forall k :: 0 <= k < |sites[j].elements| ==> r[j].elements[k] == WithStatus(sites[j].elements[k], neName, status)
  {
    seq(|sites|, j requires 0 <= j < |sites| =>
      if sites[j].site_name != siteName then sites[j]
      else sites[j].(elements := seq(|sites[j].elements|, k requires 0 <= k < |sites[j].elements| =>
        WithStatus(sites[j].elements[k], neName, status))))
  }

  /** Setting a status twice is setting it once: a repeated `update_ne_status` finds nothing to
      change, so its write reports no modification. */
  lemma StatusUpdateIdempotent(sites: seq<SiteDoc>, siteName: string, neName: string, status: string)
    ensures StatusUpdated(StatusUpdated(sites, siteName, neName, status), siteName, neName, status) ==
      StatusUpdated(sites, siteName, neName, status)
  {
    var once := StatusUpdated(sites, siteName, neName, status);
    var twice := StatusUpdated(once, siteName, neName, status);
    forall j | 0 <= j < |sites|
      ensures twice[j] == once[j]
    {
      if sites[j].site_name == siteName {
        forall k | 0 <= k < |sites[j].elements|
          ensures twice[j].elements[k] == once[j].elements[k]
        {
          var e := sites[j].elements[k];
          if HasName(e, neName) {
            assert e["status" := VStr(status)]["ne_name"] == e["ne_name"];
          }
        }
      }
    }
  }

  /** Some element of a site of the name has no `ne_name`, so the status loop raises `KeyError`. */
  predicate StatusLookupFails(sites: seq<SiteDoc>, siteName: string) {
    exists j, k :: 0 <= j < |sites| && sites[j].site_name == siteName && 0 <= k < |sites[j].elements| &&
      "ne_name" !in sites[j].elements[k]
  }

  /** The reply of `add_site_to_network`; `NoReply` is the `None` it returns when the write changed nothing. */
  /** One fresh element per name, in order, their ids drawn from `ids` from position `base` on. */
  predicate FreshElements(els: seq<Record>, names: seq<string>, ids: nat -> string, base: nat) {
    |els| == |names| && forall k :: 0 <= k < |els| ==> els[k] == NewElement(ids(base + k), names[k])
  }

  /** One site per site name, in order; site `j` takes the id at position `j * m`, with
      `m = |names| + 1`, and holds fresh elements for `names` with the `m - 1` ids after it. */
  predicate FreshSites(sites: seq<SiteDoc>, siteNames: seq<string>, names: seq<string>, ids: nat -> string) {
    |sites| == |siteNames| &&
    forall j :: 0 <= j < |sites| ==>
      sites[j].site_id == ids(j * (|names| + 1)) && sites[j].site_name == siteNames[j] &&
      FreshElements(sites[j].elements, names, ids, j * (|names| + 1) + 1)
  }

  datatype SiteReply = SiteFailure(message: string) | SiteSuccess(message: string) | NoReply

  /** The outcome of `update_ne_status`: no network, a `KeyError`, or the write (whether it changed the document). */
  datatype StatusReply = NoNetwork | MissingName | Written(modified: bool)

  /** The `networks` collection. `update_one` and `find_one` on a name both pick the first
      document of that name, and a write reports a change only when the document differs. */
  class NetworksCollection {
    var docs: seq<NetworkDoc>

    constructor ()
      ensures docs == []
    {
      docs := [];
    }

    /** `find_one({"network_name": name})`: the first document of the name, or -1. */
    function FindByName(name: string): (i: int)
      reads this
      ensures -1 <= i < |docs|
      ensures i == -1 <==> forall k :: 0 <= k < |docs| ==> docs[k].network_name != name
      ensures 0 <= i ==> docs[i].network_name == name && forall k :: 0 <= k < i ==> docs[k].network_name != name
    {
      FindIndex(docs, (d: NetworkDoc) => d.network_name == name)
    }

    /** `find_one({"network_id": id})`: the first document of the id, or -1. */
    function FindById(id: string): (i: int)
      reads this
      ensures -1 <= i < |docs|
      ensures i == -1 <==> forall k :: 0 <= k < |docs| ==> docs[k].network_id != id
      ensures 0 <= i ==> docs[i].network_id == id && forall k :: 0 <= k < i ==> docs[k].network_id != id
    {
      FindIndex(docs, (d: NetworkDoc) => d.network_id == id)
    }

    /** `update_one` with `$set` of a whole document on the first match: `modified_count > 0`. */
    method Replace(i: int, doc: NetworkDoc) returns (modified: bool)
      requires 0 <= i < |docs|
      modifies this
      ensures docs == old(docs)[i := doc]
      ensures modified <==> doc != old(docs)[i]
    {
      modified := doc != docs[i];
      docs := docs[i := doc];
    }

    /** The element list of one site or of the root: one fresh element per name, in order,
        their ids drawn from `ids` from position `base` on. */
    static method NewElements(neNames: seq<string>, ids: nat -> string, base: nat) returns (els: seq<Record>)
      ensures FreshElements(els, neNames, ids, base)
    {
      els := [];
      var k := 0;
      while k < |neNames|
        invariant 0 <= k <= |neNames| && |els| == k
        invariant forall kk :: 0 <= kk < k ==> els[kk] == NewElement(ids(base + kk), neNames[kk])
      {
        els := els + [NewElement(ids(base + k), neNames[k])];
        k := k + 1;
      }
    }

    /** The site list of `create_network`: one site per name, in order; site `j` takes the id at
        position `j * m` and its elements the `m - 1` ids after it. */
    static method NewSites(siteNames: seq<string>, names: seq<string>, ids: nat -> string) returns (sites: seq<SiteDoc>)
      ensures FreshSites(sites, siteNames, names, ids)
    {
      var m := |names| + 1;
      sites := [];
      var next := 0;
      var j := 0;
      while j < |siteNames|
        invariant 0 <= j <= |siteNames| && |sites| == j && next == j * m
        invariant FreshSites(sites, siteNames[..j], names, ids)
      {
        var els := NewElements(names, ids, next + 1);
        sites := sites + [SiteDoc(ids(next), siteNames[j], els)];
        assert (j + 1) * m == j * m + m;
        next := next + m;
        j := j + 1;
      }
      assert siteNames[..j] == siteNames;
    }

    /** `create_network`: one site per site name, in order, and at each site and at the root one
        element per element name (none when `neNames` is `None`). The ids are the successive
        `ObjectId` draws: each site's id then its elements' ids, then the network's id and the
        root elements' ids. */
    method CreateNetwork(networkName: string, siteNames: seq<string>, neNames: Option<seq<string>>, ids: nat -> string)
      modifies this
      ensures |docs| == |old(docs)| + 1 && docs[..|old(docs)|] == old(docs)
      ensures var d := docs[|old(docs)|];
        var names := if neNames.Some? then neNames.value else [];
        var base := |siteNames| * (|names| + 1);
        d.network_name == networkName && d.network_id == ids(base) && d.topo_data == map[] &&
        FreshElements(d.elements, names, ids, base + 1) && FreshSites(d.sites, siteNames, names, ids)
    {
      var names := if neNames.Some? then neNames.value else [];
      var sites := NewSites(siteNames, names, ids);
      var base := |siteNames| * (|names| + 1);
      var rootElements := NewElements(names, ids, base + 1);
      docs := docs + [NetworkDoc(ids(base), networkName, sites, rootElements, map[])];
    }

    /** `add_site_to_network`: fails when the network is missing or already has a site of the name;
        otherwise appends one empty site (its id is the fresh `siteId`) and succeeds. */
    method AddSiteToNetwork(networkName: string, siteName: string, siteId: string) returns (r: SiteReply)
      modifies this
      ensures var i := old(FindByName(networkName));
        if i == -1 then
          r == SiteFailure("Network " + networkName + " not found.") && docs == old(docs)
        else if exists k :: 0 <= k < |old(docs)[i].sites| && old(docs)[i].sites[k].site_name == siteName then
          r == SiteFailure("Site " + siteName + " already exists in network " + networkName + ".") && docs == old(docs)
        else
          r == SiteSuccess("Site " + siteName + " added successfully to network " + networkName + ".") &&
          docs == old(docs)[i := old(docs)[i].(sites := old(docs)[i].sites + [SiteDoc(siteId, siteName, [])])]
    {
      var i := FindByName(networkName);
      if i == -1 {
        return SiteFailure("Network " + networkName + " not found.");
      }
      var network := docs[i];
      var k := 0;
      while k < |network.sites|
        invariant 0 <= k <= |network.sites|
        invariant forall kk :: 0 <= kk < k ==> network.sites[kk].site_name != siteName
      {
        if network.sites[k].site_name == siteName {
          return SiteFailure("Site " + siteName + " already exists in network " + networkName + ".");
        }
        k := k + 1;
      }
      var updated := network.(sites := network.sites + [SiteDoc(siteId, siteName, [])]);
      assert |updated.sites| != |network.sites|;
      var modified := Replace(i, updated);
      if modified {
        r := SiteSuccess("Site " + siteName + " added successfully to network " + networkName + ".");
      } else {
        r := NoReply;
      }
    }

    /** `update_site_name`: renames the first site of the old name; true exactly when the
        network and such a site exist and the name actually changes. */
    method UpdateSiteName(networkName: string, oldSiteName: string, newSiteName: string) returns (r: bool)
      modifies this
      ensures var i := old(FindByName(networkName));
        var j := if i == -1 then -1 else FirstSiteNamed(old(docs)[i].sites, oldSiteName);
        (r <==> i != -1 && j != -1 && oldSiteName != newSiteName) &&
        docs == (if j == -1 then old(docs)
          else old(docs)[i := old(docs)[i].(sites := old(docs)[i].sites[j := old(docs)[i].sites[j].(site_name := newSiteName)])])
    {
      var i := FindByName(networkName);
      if i == -1 {
        return false;
      }
      var network := docs[i];
      var j := 0;
      while j < |network.sites| && network.sites[j].site_name != oldSiteName
        invariant 0 <= j <= |network.sites|
        invariant forall k :: 0 <= k < j ==> network.sites[k].site_name != oldSiteName
      {
        j := j + 1;
      }
      if j == |network.sites| {
        return false;
      }
      var site := network.sites[j];
      var updated := network.(sites := network.sites[j := site.(site_name := newSiteName)]);
      if oldSiteName != newSiteName {
        assert updated.sites[j].site_name != network.sites[j].site_name;
      }
      r := Replace(i, updated);
    }

    /** `delete_site_from_network`: every site of the name is removed, the rest keep their order;
        true exactly when something was removed. */
    method DeleteSiteFromNetwork(networkName: string, siteName: string) returns (r: bool)
      modifies this
      ensures var i := old(FindByName(networkName));
        (r <==> i != -1 && exists k :: 0 <= k < |old(docs)[i].sites| && old(docs)[i].sites[k].site_name == siteName) &&
        docs == (if i == -1 then old(docs)
          else old(docs)[i := old(docs)[i].(sites := SitesWithout(old(docs)[i].sites, siteName))])
    {
      var i := FindByName(networkName);
      if i == -1 {
        return false;
      }
      var network := docs[i];
      FilterKeepsAll(network.sites, (s: SiteDoc) => s.site_name != siteName);
      r := Replace(i, network.(sites := SitesWithout(network.sites, siteName)));
    }

    /** `ne_exists_in_network`: true exactly when the network exists and some element of one of
        its sites, or of its root, has the name. */
    method NeExistsInNetwork(networkName: string, neName: string) returns (r: bool)
      ensures r <==> (FindByName(networkName) != -1 &&
        ((exists j, k :: 0 <= j < |docs[FindByName(networkName)].sites| &&
            0 <= k < |docs[FindByName(networkName)].sites[j].elements| &&
            HasName(docs[FindByName(networkName)].sites[j].elements[k], neName)) ||
         (exists k :: 0 <= k < |docs[FindByName(networkName)].elements| &&
            HasName(docs[FindByName(networkName)].elements[k], neName))))
    {
      var i := FindByName(networkName);
      if i == -1 {
        return false;
      }
      var network := docs[i];
      var j := 0;
      while j < |network.sites|
        invariant 0 <= j <= |network.sites|
        invariant forall jj, k :: 0 <= jj < j && 0 <= k < |network.sites[jj].elements| ==>
          !HasName(network.sites[jj].elements[k], neName)
      {
        var els := network.sites[j].elements;
        var k := 0;
        while k < |els|
          invariant 0 <= k <= |els|
          invariant forall kk :: 0 <= kk < k ==> !HasName(els[kk], neName)
        {
          if HasName(els[k], neName) {
            return true;
          }
          k := k + 1;
        }
        j := j + 1;
      }
      var k := 0;
      while k < |network.elements|
        invariant 0 <= k <= |network.elements|
        invariant forall kk :: 0 <= kk < k ==> !HasName(network.elements[kk], neName)
      {
        if HasName(network.elements[k], neName) {
          return true;
        }
        k := k + 1;
      }
      return false;
    }

    /** The inner loop of `update_ne_status` over one site's elements: `None` when an element
        has no `ne_name` (the `KeyError`), otherwise every element of the name gets the status. */
    static method ElementsWithStatus(elements: seq<Record>, neName: string, status: string) returns (r: Option<seq<Record>>)
      ensures r.None? <==> exists k :: 0 <= k < |elements| && "ne_name" !in elements[k]
      ensures r.Some? ==> (|r.value| == |elements| &&
        forall k :: 0 <= k < |elements| ==> r.value[k] == WithStatus(elements[k], neName, status))
    {
      var els := elements;
      var k := 0;
      while k < |els|
        invariant 0 <= k <= |els| && |els| == |elements|
        invariant forall kk :: k <= kk < |els| ==> els[kk] == elements[kk]
        invariant forall kk :: 0 <= kk < k ==> els[kk] == WithStatus(elements[kk], neName, status)
        invariant forall kk :: 0 <= kk < k ==> "ne_name" in elements[kk]
      {
        if "ne_name" !in els[k] {
          return None;
        }
        els := els[k := WithStatus(els[k], neName, status)];
        k := k + 1;
      }
      return Some(els);
    }

    /** The loop of `update_ne_status` over the sites: `None` when it raises `KeyError`, otherwise
        the updated site list. */
    static method SitesWithStatus(sites: seq<SiteDoc>, siteName: string, neName: string, status: string)
      returns (r: Option<seq<SiteDoc>>)
      ensures r.None? <==> StatusLookupFails(sites, siteName)
      ensures r.Some? ==> r.value == StatusUpdated(sites, siteName, neName, status)
    {
      var updated := sites;
      var j := 0;
      while j < |updated|
        invariant 0 <= j <= |updated| && |updated| == |sites|
        invariant forall jj :: j <= jj < |updated| ==> updated[jj] == sites[jj]
        invariant forall jj :: 0 <= jj < j ==> updated[jj] == StatusUpdated(sites, siteName, neName, status)[jj]
        invariant forall jj, k :: 0 <= jj < j && sites[jj].site_name == siteName && 0 <= k < |sites[jj].elements| ==>
          "ne_name" in sites[jj].elements[k]
      {
        if updated[j].site_name == siteName {
          var els := ElementsWithStatus(updated[j].elements, neName, status);
          if els.None? {
            return None;
          }
          updated := updated[j := updated[j].(elements := els.value)];
        }
        j := j + 1;
      }
      return Some(updated);
    }

    /** `update_ne_status`: in every site of the name, every element of the name gets the status,
        and the document is written back. An element of such a site without `ne_name` raises
        `KeyError` before the write. */
    method UpdateNeStatus(networkName: string, siteName: string, neName: string, status: string) returns (r: StatusReply)
      modifies this
      ensures var i := old(FindByName(networkName));
        if i == -1 then r == NoNetwork && docs == old(docs)
        else if StatusLookupFails(old(docs)[i].sites, siteName) then r == MissingName && docs == old(docs)
        else
          var updated := old(docs)[i].(sites := StatusUpdated(old(docs)[i].sites, siteName, neName, status));
          docs == old(docs)[i := updated] && r == Written(updated != old(docs)[i])
    {
      var i := FindByName(networkName);
      if i == -1 {
        return NoNetwork;
      }
      var network := docs[i];
      var sites := SitesWithStatus(network.sites, siteName, neName, status);
      if sites.None? {
        return MissingName;
      }
      var modified := Replace(i, network.(sites := sites.value));
      r := Written(modified);
    }

    /** `update_network_name`: the first document of the old name is renamed; true exactly when
        it exists and the name changes. */
    method UpdateNetworkName(oldName: string, newName: string) returns (r: bool)
      modifies this
      ensures var i := old(FindByName(oldName));
        (r <==> i != -1 && oldName != newName) &&
        docs == (if i == -1 then old(docs) else old(docs)[i := old(docs)[i].(network_name := newName)])
    {
      var i := FindByName(oldName);
      if i == -1 {
        return false;
      }
      r := Replace(i, docs[i].(network_name := newName));
    }

    /** `delete_network`: the first document of the name is removed; true exactly when there was one. */
    method DeleteNetwork(networkName: string) returns (deleted: bool)
      modifies this
      ensures var i := old(FindByName(networkName));
        (deleted <==> i != -1) && docs == (if i == -1 then old(docs) else old(docs)[..i] + old(docs)[i + 1..])
    {
      var i := FindByName(networkName);
      if i == -1 {
        return false;
      }
      docs := docs[..i] + docs[i + 1..];
      return true;
    }
  }
}
