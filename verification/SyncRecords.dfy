/** What the records say that a sync stores: connections, devices, access points, wireless devices. */
module SyncRecords {
  import opened Text
  import opened ObjectPaths
  import opened Tables
  import opened RuntimeState
  import opened Backends
  import opened Sync
  import opened SyncConnectionFacts
  import opened SyncTheorems
  import opened ActiveLinks

  // ------------------------------------------------------------------ connections

  predicate Says(c: Connection, group: string, key: string, text: string) {
    TextSetting(c.settings, group, key) == Some(text)
  }

  predicate SaysOfItself(c: Connection, id: string, interfaceName: string) {
    && Says(c, "connection", "id", id) && Says(c, "connection", "interface-name", interfaceName)
    && Says(c, "connection", "type", c.connectionType) && Says(c, "connection", "uuid", c.uuid)
    && c.SettingFlag("connection", "autoconnect")
    && Says(c, "ipv4", "method", "auto") && Says(c, "ipv6", "method", "auto")
  }

  /** The connection of a link that is not Wi-Fi. */
  predicate IsWiredRecord(env: Env, c: Connection, link: Link, kind: string) {
    && c.connectionType == kind && c.origin == BackendWired && !c.unsaved && c.uuid == env.uuid(kind, link.name)
    && c.filename == env.networkDir + "/" + link.name + "." + (if kind == "802-3-ethernet" then "network" else "netdev")
    && SaysOfItself(c, link.name, link.name)
    && kind in c.settings && "802-11-wireless" !in c.settings
  }

  /** The connection of a known network, put on this interface. */
  predicate IsWifiRecord(env: Env, c: Connection, network: KnownNetwork, interfaceName: string) {
    && c.connectionType == "802-11-wireless" && c.origin == BackendWifi && !c.unsaved
    && c.uuid == env.uuid("wifi", network.path)
    && c.filename == "/var/lib/iwd/" + network.name + "." + network.kind
    && SaysOfItself(c, network.name, interfaceName)
    && c.Ssid() == Some(network.name) && Says(c, "802-11-wireless", "mode", "infrastructure")
    && (c.SettingFlag("802-11-wireless", "hidden") <==> network.hidden)
    && (if network.kind == "open" then "802-11-wireless-security" !in c.settings
        else Says(c, "802-11-wireless-security", "key-mgmt", "wpa-psk"))
  }

  /** The first Wi-Fi link's name, or nothing. */
  ghost predicate IsWifiInterface(links: seq<Link>, name: string) {
    if forall l :: l in links ==> l.linkType != Wlan then name == ""
    else exists i :: IsFirstWlan(links, i) && name == links[i].name
  }

  predicate IsFirstWlan(links: seq<Link>, i: int) {
    0 <= i < |links| && links[i].linkType == Wlan && forall j :: 0 <= j < i ==> links[j].linkType != Wlan
  }

  lemma {:induction false} WirelessIsFirst(links: seq<Link>)
    ensures IsWifiInterface(links, WirelessInterface(links))
  {
    if links != [] {
      assert links == [links[0]] + links[1..];
      if links[0].linkType == Wlan {
        assert IsFirstWlan(links, 0) && links[0] in links;
      } else {
        WirelessIsFirst(links[1..]);
        if i :| IsFirstWlan(links[1..], i) && WirelessInterface(links) == links[1..][i].name {
          assert forall j :: 0 < j < |links| ==> links[j] == links[1..][j - 1];
          assert IsFirstWlan(links, i + 1);
        }
      }
    }
  }

  lemma {:induction false} WiredSays(env: Env, link: Link, kind: string)
    requires link.connectionType == Some(kind) && kind !in {"802-11-wireless", "connection", "ipv4", "ipv6"}
    ensures IsWiredRecord(env, Realized(WantedWired(env, link)), link, kind)
  {
    var extension := if kind == ETHERNET then "network" else "netdev";
    assert env.networkDir + "/" + link.name + "." + extension == env.networkDir + "/" + link.name + ("." + extension);
  }

  lemma {:induction false} WifiSaysOfItself(env: Env, interfaceName: string, network: KnownNetwork)
    ensures SaysOfItself(Realized(WantedWifi(env, interfaceName, network)), network.name, interfaceName)
  {
    hide Utf8;
  }

  lemma {:induction false} WifiSays(env: Env, interfaceName: string, network: KnownNetwork)
    ensures IsWifiRecord(env, Realized(WantedWifi(env, interfaceName, network)), network, interfaceName)
  {
    WifiSaysOfItself(env, interfaceName, network);
    Utf8RoundTrip(network.name);
    hide Utf8, FromUtf8, SaysOfItself;
  }

  lemma {:induction false} LastWishIn(ws: seq<Wanted>, uuid: string)
    ensures LastWish(ws, uuid).Some? ==> LastWish(ws, uuid).value in ws
  {
    if ws != [] {
      assert ws == ws[..|ws| - 1] + [ws[|ws| - 1]];
      LastWishIn(ws[..|ws| - 1], uuid);
    }
  }

  lemma {:induction false} LastWishOfTwo(a: seq<Wanted>, b: seq<Wanted>, uuid: string)
    ensures LastWish(a + b, uuid) == if LastWish(b, uuid).Some? then LastWish(b, uuid) else LastWish(a, uuid)
  {
    if b == [] {
      assert a + b == a;
    } else {
      assert (a + b)[..|a + b| - 1] == a + b[..|b| - 1];
      LastWishOfTwo(a, b[..|b| - 1], uuid);
    }
  }

  lemma {:induction false} WishedHasLast(ws: seq<Wanted>, w: Wanted)
    requires w in ws
    ensures LastWish(ws, w.uuid).Some?
  {
    var k :| 0 <= k < |ws| && ws[k] == w;
    assert Uuids(ws)[k] == w.uuid;
  }

  lemma {:induction false} WiredWishesMembers(env: Env, links: seq<Link>, w: Wanted)
    requires w in WiredWishes(env, links)
    ensures exists l :: l in links && WantsConnection(l) && w == WantedWired(env, l)
  {
    hide WantedWired;
    var front, last := links[..|links| - 1], links[|links| - 1];
    assert links == front + [last];
    if w in WiredWishes(env, front) {
      WiredWishesMembers(env, front, w);
    } else {
      assert last in links;
    }
  }

  lemma {:induction false} WifiWishesMembers(env: Env, interfaceName: string, networks: seq<KnownNetwork>, w: Wanted)
    requires w in WifiWishes(env, interfaceName, networks)
    ensures exists n :: n in networks && w == WantedWifi(env, interfaceName, n)
  {
    hide WantedWifi;
    var front, last := networks[..|networks| - 1], networks[|networks| - 1];
    assert networks == front + [last];
    if w in WifiWishes(env, interfaceName, front) {
      WifiWishesMembers(env, interfaceName, front, w);
    } else {
      assert last in networks;
    }
  }

  /** The uuid of the connection that the sync wants for a link, if it wants one. */
  predicate HasWiredUuid(env: Env, link: Link, uuid: string) {
    link.connectionType.Some? && link.connectionType.value != "802-11-wireless"
    && env.uuid(link.connectionType.value, link.name) == uuid
  }

  lemma {:induction false} WiredUuid(env: Env, link: Link)
    ensures WantsConnection(link) ==> HasWiredUuid(env, link, WantedWired(env, link).uuid)
  {
  }

  lemma {:induction false} LastWiredWish(env: Env, links: seq<Link>, iwd: Iwd, link: Link)
    requires link in links && WantsConnection(link)
    requires forall l :: l in links && HasWiredUuid(env, l, WantedWired(env, link).uuid) ==> l == link
    ensures LastWish(Wishes(env, links, iwd), WantedWired(env, link).uuid) == Some(WantedWired(env, link))
  {
    var w, wired := WantedWired(env, link), WiredWishes(env, links);
    WiredIsWanted(env, links, link);
    WishedHasLast(wired, w);
    LastWishIn(wired, w.uuid);
    var last := LastWish(wired, w.uuid).value;
    WiredWishesMembers(env, links, last);
    var l :| l in links && WantsConnection(l) && last == WantedWired(env, l);
    WiredUuid(env, l);
    LastWishOfTwo(WifiWishes(env, WirelessInterface(links), iwd.knownNetworks), wired, w.uuid);
  }

  lemma {:induction false} LastWifiWish(env: Env, links: seq<Link>, iwd: Iwd, network: KnownNetwork)
    requires network in iwd.knownNetworks
    requires forall n :: n in iwd.knownNetworks && env.uuid("wifi", n.path) == env.uuid("wifi", network.path)
               ==> n == network
    requires forall l :: l in links ==> !HasWiredUuid(env, l, env.uuid("wifi", network.path))
    ensures LastWish(Wishes(env, links, iwd), env.uuid("wifi", network.path))
         == Some(WantedWifi(env, WirelessInterface(links), network))
  {
    var name := WirelessInterface(links);
    var wifi, wired := WifiWishes(env, name, iwd.knownNetworks), WiredWishes(env, links);
    var w := WantedWifi(env, name, network);
    LastWishIn(wired, w.uuid);
    if LastWish(wired, w.uuid).Some? {
      WiredWishesMembers(env, links, LastWish(wired, w.uuid).value);
      assert false;
    }
    WifiIsWanted(env, name, iwd.knownNetworks, network);
    WishedHasLast(wifi, w);
    LastWishIn(wifi, w.uuid);
    WifiWishesMembers(env, name, iwd.knownNetworks, LastWish(wifi, w.uuid).value);
    LastWishOfTwo(wifi, wired, w.uuid);
  }

  lemma {:induction false} LastWishIsStored(env: Env, s: State, links: seq<Link>, iwd: Iwd, w: Wanted)
    requires Ready(s) && LastWish(Wishes(env, links, iwd), w.uuid) == Some(w)
    ensures var t := AfterSync(env, s, links, iwd).state.connections;
            exists i :: IsFirstWithUuid(t, i) && t[i].value == Realized(w)
  {
    var t := AfterSync(env, s, links, iwd).state.connections;
    WantedUuidsAreThere(s, Wishes(env, links, iwd), w.uuid);
    hide Wishes, SyncedConnections, Realized;
    assert IsFirstWithUuid(t, UuidPosition(t, w.uuid));
  }

  /** After a sync, a link whose type is that of a connection other than Wi-Fi has its connection, under the
      uuid of its type and name, with the link's name, the profile file of its kind and automatic addresses,
      provided that no other such link has the same uuid. */
  lemma {:induction false} WiredRecordSays(env: Env, s: State, links: seq<Link>, iwd: Iwd, link: Link, kind: string)
    requires Ready(s) && link in links && link.connectionType == Some(kind)
    requires kind !in {"802-11-wireless", "connection", "ipv4", "ipv6"}
    requires forall l :: l in links && HasWiredUuid(env, l, env.uuid(kind, link.name)) ==> l == link
    ensures var t := AfterSync(env, s, links, iwd).state.connections;
            exists i :: IsFirstWithUuid(t, i) && IsWiredRecord(env, t[i].value, link, kind)
  {
    WiredSays(env, link, kind);
    var w := WantedWired(env, link);
    assert w.uuid == env.uuid(kind, link.name);
    hide Ready, AfterSync, Wishes, Realized, WantedWired, IsWiredRecord, HasWiredUuid;
    LastWiredWish(env, links, iwd, link);
    LastWishIsStored(env, s, links, iwd, w);
  }

  /** And every known network has its connection, on the first Wi-Fi link, with its SSID, whether it is hidden,
      and a security group unless the network is open. */
  lemma {:induction false} WifiRecordSays(env: Env, s: State, links: seq<Link>, iwd: Iwd, network: KnownNetwork)
    requires Ready(s) && network in iwd.knownNetworks
    requires forall n :: n in iwd.knownNetworks && env.uuid("wifi", n.path) == env.uuid("wifi", network.path)
               ==> n == network
    requires forall l :: l in links ==> !HasWiredUuid(env, l, env.uuid("wifi", network.path))
    ensures var t := AfterSync(env, s, links, iwd).state.connections;
            exists i, name ::
              IsFirstWithUuid(t, i) && IsWifiInterface(links, name) && IsWifiRecord(env, t[i].value, network, name)
  {
    var name := WirelessInterface(links);
    WirelessIsFirst(links);
    WifiSays(env, name, network);
    var w := WantedWifi(env, name, network);
    assert w.uuid == env.uuid("wifi", network.path);
    hide Ready, AfterSync, Wishes, Realized, WantedWifi, IsWifiRecord, IsWifiInterface, WirelessInterface, HasWiredUuid;
    LastWifiWish(env, links, iwd, network);
    LastWishIsStored(env, s, links, iwd, w);
  }

  // ----------------------------------------------------------------------- devices

  predicate ConfigIs(path: string, present: bool, prefix: string, name: string) {
    path == if present then prefix + "/" + Segment(name) else "/"
  }

  /** The station of a Wi-Fi link that is a P2P device sees this network, and iwd knows its object. */
  predicate SeesPeer(iwd: Iwd, link: Link, path: string) {
    && link.linkType == Wlan && link.isP2p
    && Lookup(iwd.devices, link.name).Some?
    && var station := Lookup(iwd.stations, Lookup(iwd.devices, link.name).value.value);
       && station.Some? && Lookup(iwd.networks, path).Some?
       && exists o :: o in station.value.value.orderedNetworks && o.path == path
  }

  /** The device record says what networkd says of the link, and lists the peers its station sees. */
  ghost predicate IsDeviceOf(env: Env, iwd: Iwd, d: Device, link: Link) {
    && d.interfaceName == link.name && d.kind == link.kind && d.linkType == link.linkType
    && d.wifiP2p == link.isP2p
    && (d.isPpp <==> link.linkType == Ppp || StartsWith(link.name, "ppp"))
    && ConfigIs(d.ip4Config, link.hasIp4Config, IP4_CONFIG, link.name)
    && ConfigIs(d.ip6Config, link.hasIp6Config, IP6_CONFIG, link.name)
    && ConfigIs(d.dhcp4Config, link.hasDhcp4Config, DHCP4_CONFIG, link.name)
    && ConfigIs(d.dhcp6Config, link.hasDhcp6Config, DHCP6_CONFIG, link.name)
    && forall p :: p in d.p2pPeers
         <==> exists path :: SeesPeer(iwd, link, path) && p == PeerPath(env.uuid, link.name, path)
  }

  lemma {:induction false} PeersMembers(env: Env, iwd: Iwd, interfaceName: string, networks: seq<OrderedNetwork>)
    ensures forall p :: p in PeersOf(env, iwd, interfaceName, networks)
              <==> exists o :: o in networks && Lookup(iwd.networks, o.path).Some?
                               && p == PeerPath(env.uuid, interfaceName, o.path)
  {
    hide Lookup, PeerPath;
    if networks != [] {
      assert networks == networks[..|networks| - 1] + [networks[|networks| - 1]];
      PeersMembers(env, iwd, interfaceName, networks[..|networks| - 1]);
    }
  }

  lemma {:induction false} PeersSeen(env: Env, iwd: Iwd, link: Link, p: string)
    ensures p in PeersOfLink(env, iwd, link)
            <==> exists path :: SeesPeer(iwd, link, path) && p == PeerPath(env.uuid, link.name, path)
  {
    if link.linkType == Wlan && link.isP2p && StationOf(iwd, link.name).Some? {
      var networks := StationOf(iwd, link.name).value.orderedNetworks;
      PeersMembers(env, iwd, link.name, networks);
      hide PeersOf, Lookup, PeerPath;
      if p in PeersOfLink(env, iwd, link) {
        var o :| o in networks && Lookup(iwd.networks, o.path).Some? && p == PeerPath(env.uuid, link.name, o.path);
        assert SeesPeer(iwd, link, o.path);
      }
    }
  }

  lemma {:induction false} DeviceSays(env: Env, iwd: Iwd, link: Link)
    ensures IsDeviceOf(env, iwd, DeviceOf(env, iwd, link), link)
  {
    hide StartsWith, PeersOfLink, SeesPeer, PeerPath, Segment;
    forall p ensures p in PeersOfLink(env, iwd, link)
        <==> exists path :: SeesPeer(iwd, link, path) && p == PeerPath(env.uuid, link.name, path)
    {
      PeersSeen(env, iwd, link, p);
    }
  }

  lemma {:induction false} WantedDevicesDistinct(env: Env, iwd: Iwd, links: seq<Link>)
    requires DistinctElements(links)
    ensures Distinct(WantedDevices(env, iwd, links))
  {
    var wanted := WantedDevices(env, iwd, links);
    hide DeviceOf, Segment, DevicePath;
    forall i, j | 0 <= i < j < |wanted| ensures wanted[i].path != wanted[j].path {
      assert Segment(links[i].name) != Segment(links[j].name);
      LastSegmentOfDevicePath(links[i].name);
      LastSegmentOfDevicePath(links[j].name);
    }
  }

  lemma {:induction false} WantedOfLinks(env: Env, iwd: Iwd, links: seq<Link>)
    ensures var wanted := WantedDevices(env, iwd, links);
            && |wanted| == |links|
            && forall i :: 0 <= i < |links| ==>
                 wanted[i].path == DevicePath(links[i].name) && wanted[i].value == DeviceOf(env, iwd, links[i])
  {
    hide DeviceOf, DevicePath;
  }

  lemma {:induction false} DeviceTableSays(env: Env, iwd: Iwd, t: Table<Device>, links: seq<Link>, link: Link)
    requires Distinct(t) && DistinctElements(links) && link in links
    ensures var r := SyncedDevices(t, WantedDevices(env, iwd, links)).table;
            var found := Lookup(r, DevicePath(link.name));
            && found.Some? && IsDeviceOf(env, iwd, found.value.value, link)
            && forall e :: e in r ==> exists l :: l in links && e.path == DevicePath(l.name)
  {
    var wanted := WantedDevices(env, iwd, links);
    hide SyncedDevices, DeviceOf, IsDeviceOf, DevicePath, Distinct, WantedDevices, Position, Lookup;
    SyncedDevicesFacts(t, wanted);
    WantedDevicesDistinct(env, iwd, links);
    DeviceSays(env, iwd, link);
    WantedOfLinks(env, iwd, links);
    hide DistinctElements;
    var i :| 0 <= i < |links| && links[i] == link;
    LatestDistinct(wanted, i);
    var r := SyncedDevices(t, wanted).table;
    forall e | e in r ensures exists l :: l in links && e.path == DevicePath(l.name) {
      assert e.path in PathSet(wanted);
      var j := Position(wanted, e.path);
      assert links[j] in links;
    }
  }

  /** After a sync there is exactly one device for each link, which says what the backends say of it. */
  lemma {:induction false} DeviceRecordSays(env: Env, s: State, links: seq<Link>, iwd: Iwd, link: Link)
    requires Ready(s) && DistinctElements(links) && link in links
    ensures var t := AfterSync(env, s, links, iwd).state.devices;
            var found := Lookup(t, DevicePath(link.name));
            && found.Some? && IsDeviceOf(env, iwd, found.value.value, link)
            && forall e :: e in t ==> exists l :: l in links && e.path == DevicePath(l.name)
  {
    DeviceTableSays(env, iwd, s.devices, links, link);
    assert AfterSync(env, s, links, iwd).state.devices
        == SyncedDevices(s.devices, WantedDevices(env, iwd, links)).table;
    hide AfterSync, SyncedDevices, IsDeviceOf, DevicePath, Lookup;
  }

  // ----------------------------------------------------------------- access points

  /** Some station sees the network, and iwd knows its object. */
  predicate IsSeen(iwd: Iwd, o: OrderedNetwork) {
    Lookup(iwd.networks, o.path).Some? && exists st :: st in iwd.stations && o in st.value.orderedNetworks
  }

  lemma {:induction false} StationMembers(env: Env, iwd: Iwd, networks: seq<OrderedNetwork>)
    ensures forall e :: e in AccessPointsOfStation(env, iwd, networks)
              <==> exists o :: o in networks && Visible(env, iwd, o) == Some(e)
  {
    hide Visible;
    if networks != [] {
      assert networks == networks[..|networks| - 1] + [networks[|networks| - 1]];
      StationMembers(env, iwd, networks[..|networks| - 1]);
    }
  }

  predicate SeenBy(o: OrderedNetwork, stations: Table<Station>) {
    exists st :: st in stations && o in st.value.orderedNetworks
  }

  lemma {:induction false} AccessPointMembers(env: Env, iwd: Iwd, stations: Table<Station>)
    ensures forall e :: e in WantedAccessPoints(env, iwd, stations)
              <==> exists o :: SeenBy(o, stations) && Visible(env, iwd, o) == Some(e)
  {
    hide Visible;
    if stations != [] {
      var front, last := stations[..|stations| - 1], stations[|stations| - 1];
      assert stations == front + [last];
      AccessPointMembers(env, iwd, front);
      StationMembers(env, iwd, last.value.orderedNetworks);
      assert forall o :: SeenBy(o, stations) <==> SeenBy(o, front) || o in last.value.orderedNetworks;
    }
  }

  /** The access point says what iwd says of the network, with the address of its first basic service set. */
  predicate IsAccessPointOf(iwd: Iwd, a: AccessPoint, n: Network) {
    && a.ssid == n.name && a.security == n.kind
    && a.hardwareAddress
       == (if n.extendedServiceSet != [] && Lookup(iwd.basicServiceSets, n.extendedServiceSet[0]).Some?
           then Lookup(iwd.basicServiceSets, n.extendedServiceSet[0]).value.value else "")
  }

  predicate IsSighting(env: Env, iwd: Iwd, e: Entry<AccessPoint>, o: OrderedNetwork) {
    && IsSeen(iwd, o) && e.path == AccessPointPath(env.uuid, o.path)
    && e.value.signal == o.signal && IsAccessPointOf(iwd, e.value, Lookup(iwd.networks, o.path).value.value)
  }

  lemma {:induction false} VisibleIsSighting(env: Env, iwd: Iwd, o: OrderedNetwork, e: Entry<AccessPoint>)
    requires SeenBy(o, iwd.stations)
    ensures Visible(env, iwd, o).Some? <==> IsSeen(iwd, o)
    ensures Visible(env, iwd, o) == Some(e) ==> IsSighting(env, iwd, e, o)
  {
    hide AccessPointPath, Lookup;
  }

  /** After a sync the access points are exactly those of the networks that some station sees, and each one
      says what iwd says of such a network. */
  lemma {:induction false} AccessPointRecordsSay(env: Env, s: State, links: seq<Link>, iwd: Iwd)
    requires Ready(s)
    ensures var t := AfterSync(env, s, links, iwd).state.accessPoints;
            && (forall o :: IsSeen(iwd, o) ==> AccessPointPath(env.uuid, o.path) in PathSet(t))
            && (forall e :: e in t ==> exists o :: IsSighting(env, iwd, e, o))
  {
    var t, wanted := AfterSync(env, s, links, iwd).state.accessPoints, WantedAccessPoints(env, iwd, iwd.stations);
    SyncedAccessPointsFacts(s.accessPoints, wanted);
    AccessPointMembers(env, iwd, iwd.stations);
    assert t == SyncedAccessPoints(s.accessPoints, wanted).table;
    hide Ready, AfterSync, SyncedAccessPoints, WantedAccessPoints, IsSighting, AccessPointPath;
    forall o | IsSeen(iwd, o) ensures AccessPointPath(env.uuid, o.path) in PathSet(t) {
      assert SeenBy(o, iwd.stations);
      var e := Visible(env, iwd, o).value;
      assert e in wanted;
    }
    hide Visible;
    forall e | e in t ensures exists o :: IsSighting(env, iwd, e, o) {
      LatestMember(wanted, e.path);
      LatestIsIn(wanted, e.path);
      var i :| 0 <= i < |t| && t[i] == e;
      DistinctLookup(t, i);
      var o :| SeenBy(o, iwd.stations) && Visible(env, iwd, o) == Some(e);
      VisibleIsSighting(env, iwd, o, e);
    }
  }

  lemma {:induction false} LatestIsIn<V>(es: Table<V>, path: string)
    ensures Latest(es, path).Some? ==> Latest(es, path).value in es
  {
    if es != [] {
      assert es == es[..|es| - 1] + [es[|es| - 1]];
      LatestIsIn(es[..|es| - 1], path);
    }
  }

  // -------------------------------------------------------------- wireless devices

  /** What the wireless record of a Wi-Fi link says, with and without a station. */
  predicate IsWirelessOf(env: Env, iwd: Iwd, w: WirelessDevice, link: Link) {
    && w.bitrate == Min((if link.bitRates.0 > link.bitRates.1 then link.bitRates.0 else link.bitRates.1) / 1000,
                        0xFFFF_FFFF)
    && if Lookup(iwd.devices, link.name).Some?
          && Lookup(iwd.stations, Lookup(iwd.devices, link.name).value.value).Some?
       then
         var station := Lookup(iwd.stations, Lookup(iwd.devices, link.name).value.value).value.value;
         && |w.accessPoints| == |station.orderedNetworks| && w.lastScan == 0
         && (forall i :: 0 <= i < |w.accessPoints|
               ==> w.accessPoints[i] == AccessPointPath(env.uuid, station.orderedNetworks[i].path))
         && w.activeAccessPoint == (if station.connectedNetwork.Some?
                                    then AccessPointPath(env.uuid, station.connectedNetwork.value) else "/")
       else w.accessPoints == [] && w.activeAccessPoint == "/" && w.lastScan == -1
  }

  lemma {:induction false} WirelessSays(env: Env, iwd: Iwd, link: Link)
    ensures IsWirelessOf(env, iwd, WirelessEntry(env, iwd, link).value, link)
    ensures WirelessEntry(env, iwd, link).path == link.name
  {
    hide AccessPointPath, Lookup;
  }

  /** After a sync every Wi-Fi link has its wireless record; a link that is neither Wi-Fi nor Ethernet nor a
      loopback has none. */
  lemma {:induction false} WirelessRecordSays(env: Env, s: State, links: seq<Link>, iwd: Iwd, link: Link)
    requires Ready(s) && DistinctNames(links) && link in links
    ensures var found := Lookup(AfterSync(env, s, links, iwd).state.wirelessDevices, link.name);
            && (link.linkType == Wlan ==> found.Some? && IsWirelessOf(env, iwd, found.value.value, link))
            && (link.linkType !in {Wlan, Ether, Loopback} ==> found.None?)
  {
    SyncedWirelessSettled(env, iwd, s.wirelessDevices, s.devices, links);
    WirelessSays(env, iwd, link);
    var w := SyncedWireless(env, iwd, s.wirelessDevices, s.devices, links);
    assert AfterSync(env, s, links, iwd).state.wirelessDevices == w;
    assert Settled(env, iwd, w, link);
    hide AfterSync, SyncedWireless, WirelessEntry, IsWirelessOf;
  }

  lemma {:induction false} DropGone(w: Table<WirelessDevice>, devices: Table<Device>, stale: seq<string>, path: string)
    requires Distinct(w) && path in stale && path in PathSet(devices)
    ensures var r := DropWireless(w, devices, stale);
            Distinct(r) && Lookup(devices, path).value.value.interfaceName !in PathSet(r)
  {
    var front, last := stale[..|stale| - 1], stale[|stale| - 1];
    var rest := DropWireless(w, devices, front);
    assert stale == front + [last];
    DropWirelessDistinct(w, devices, front);
    if Lookup(devices, last).Some? {
      WithoutFacts(rest, Lookup(devices, last).value.value.interfaceName);
    }
    hide Without, Lookup, Distinct, PathSet;
    if path != last {
      DropGone(w, devices, front, path);
    }
  }

  /** Syncing one device puts no other name among the wireless records. */
  lemma {:induction false} OneDeviceAddsNoOther(env: Env, iwd: Iwd, w: Table<WirelessDevice>, link: Link, name: string)
    requires Distinct(w) && name !in PathSet(w) && (link.linkType == Wlan ==> link.name != name)
    ensures var r := WirelessOfDevice(env, iwd, w, link); Distinct(r) && name !in PathSet(r)
  {
    WirelessSays(env, iwd, link);
    hide WirelessEntry, Distinct, PathSet, Upsert, Without;
    UpsertFacts(w, WirelessEntry(env, iwd, link));
    WithoutFacts(w, link.name);
  }

  lemma {:induction false} DevicesAddNoOther(env: Env, iwd: Iwd, w: Table<WirelessDevice>, links: seq<Link>,
                                             name: string)
    requires Distinct(w) && name !in PathSet(w)
    requires forall l :: l in links && l.linkType == Wlan ==> l.name != name
    ensures var r := WirelessOfDevices(env, iwd, w, links); Distinct(r) && name !in PathSet(r)
    decreases |links|
  {
    hide Distinct, PathSet, WirelessOfDevice;
    if links != [] {
      var front, last := links[..|links| - 1], links[|links| - 1];
      assert links == front + [last];
      DevicesAddNoOther(env, iwd, w, front, name);
      OneDeviceAddsNoOther(env, iwd, WirelessOfDevices(env, iwd, w, front), last, name);
    }
  }

  lemma {:induction false} RefreshAddsNoOther(env: Env, iwd: Iwd, w: Table<WirelessDevice>, links: seq<Link>,
                                              name: string)
    requires Distinct(w) && name !in PathSet(w)
    requires forall l :: l in links && l.linkType == Wlan ==> l.name != name
    ensures var r := RefreshWireless(env, iwd, w, links); Distinct(r) && name !in PathSet(r)
    decreases |links|
  {
    hide Distinct, PathSet, WirelessEntry, Upsert;
    if links != [] {
      var front, last := links[..|links| - 1], links[|links| - 1];
      assert links == front + [last];
      RefreshAddsNoOther(env, iwd, w, front, name);
      WirelessSays(env, iwd, last);
      UpsertFacts(RefreshWireless(env, iwd, w, front), WirelessEntry(env, iwd, last));
    }
  }

  /** The wireless record of a device that is gone is gone too, unless a Wi-Fi link has taken the name. */
  lemma {:induction false} WirelessGoesWithDevice(env: Env, s: State, links: seq<Link>, iwd: Iwd, d: Entry<Device>)
    requires Ready(s) && d in s.devices && forall l :: l in links ==> DevicePath(l.name) != d.path
    requires forall l :: l in links && l.linkType == Wlan ==> l.name != d.value.interfaceName
    ensures d.value.interfaceName !in PathSet(AfterSync(env, s, links, iwd).state.wirelessDevices)
  {
    var wanted := WantedDevices(env, iwd, links);
    var stale := Stale(s.devices, Paths(wanted));
    var name := d.value.interfaceName;
    WantedOfLinks(env, iwd, links);
    StaleMembers(s.devices, Paths(wanted));
    assert forall p :: p in Paths(wanted) ==> exists i :: 0 <= i < |wanted| && wanted[i].path == p;
    assert forall i :: 0 <= i < |links| ==> links[i] in links;
    assert d.path in stale;
    var i :| 0 <= i < |s.devices| && s.devices[i] == d;
    DistinctLookup(s.devices, i);
    assert AfterSync(env, s, links, iwd).state.wirelessDevices
        == SyncedWireless(env, iwd, s.wirelessDevices, s.devices, links);
    hide AfterSync, WantedDevices, Stale, Distinct, PathSet, Lookup, DevicePath;
    DropGone(s.wirelessDevices, s.devices, stale, d.path);
    var dropped := DropWireless(s.wirelessDevices, s.devices, stale);
    DevicesAddNoOther(env, iwd, dropped, links, name);
    RefreshAddsNoOther(env, iwd, WirelessOfDevices(env, iwd, dropped, links), links, name);
  }
}
