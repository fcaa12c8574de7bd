/** What systemd-networkd and iwd report, and what each report asks the runtime to hold. */
module Backends {
  import opened Text
  import opened ObjectPaths
  import opened Tables
  import opened RuntimeState

  /** One link of systemd-networkd. `connectionType`, `isActive` and the four config flags
      are the answers of the lookups on the link's kind, type, operational state and addresses. */
  datatype Link = Link(
    name: string,
    kind: string,
    linkType: LinkType,
    connectionType: Option<string>,
    isActive: bool,
    isP2p: bool,
    bitRates: (nat, nat),
    hasIp4Config: bool,
    hasIp6Config: bool,
    hasDhcp4Config: bool,
    hasDhcp6Config: bool)

  datatype KnownNetwork = KnownNetwork(path: string, name: string, kind: string, hidden: bool)

  datatype Network = Network(name: string, kind: string, knownNetwork: string, extendedServiceSet: seq<string>)

  datatype OrderedNetwork = OrderedNetwork(path: string, signal: int)

  datatype Station = Station(connectedNetwork: Option<string>, orderedNetworks: seq<OrderedNetwork>)

  /** The state of iwd. `devices` maps an interface name to the object path of its device. */
  datatype Iwd = Iwd(
    basicServiceSets: Table<string>,
    devices: Table<string>,
    knownNetworks: seq<KnownNetwork>,
    networks: Table<Network>,
    stations: Table<Station>)

  /** The name-based UUIDs and the directory of networkd profiles. */
  datatype Env = Env(uuid: UuidFunction, networkDir: string)

  // -------------------------------------------------------------- connections

  /** What a backend wants the connection with this uuid to be. */
  datatype Wanted = Wanted(uuid: string, connectionType: string, filename: string, origin: Origin, settings: Settings)

  function Realized(w: Wanted): Connection {
    Connection(w.connectionType, w.filename, w.origin, w.settings, false, w.uuid)
  }

  function WirelessInterface(links: seq<Link>): string {
    if links == [] then "" else if links[0].linkType == Wlan then links[0].name else WirelessInterface(links[1..])
  }

  const AUTO: map<string, Value> := map["method" := Value.Text("auto")]

  function WifiSettings(interfaceName: string, network: KnownNetwork, uuid: string): Settings {
    var base: Settings := map[
      "connection" := map["autoconnect" := Flag(true), "id" := Value.Text(network.name),
                          "interface-name" := Value.Text(interfaceName), "type" := Value.Text(WIFI),
                          "uuid" := Value.Text(uuid)],
      WIFI := map["hidden" := Flag(network.hidden), "mode" := Value.Text("infrastructure"),
                  "ssid" := Bytes(Utf8(network.name))],
      "ipv4" := AUTO,
      "ipv6" := AUTO];
    if network.kind == "open" then base else base[SECURITY := map["key-mgmt" := Value.Text("wpa-psk")]]
  }

  function LinkSettings(interfaceName: string, connectionType: string, uuid: string): Settings {
    var base: Settings := map[
      "connection" := map["autoconnect" := Flag(true), "id" := Value.Text(interfaceName),
                          "interface-name" := Value.Text(interfaceName), "type" := Value.Text(connectionType),
                          "uuid" := Value.Text(uuid)],
      "ipv4" := AUTO,
      "ipv6" := AUTO];
    base[connectionType := map[]]
  }

  function WantedWifi(env: Env, interfaceName: string, network: KnownNetwork): Wanted {
    var uuid := env.uuid("wifi", network.path);
    Wanted(uuid, WIFI, "/var/lib/iwd/" + network.name + "." + network.kind, BackendWifi,
           WifiSettings(interfaceName, network, uuid))
  }

  predicate WantsConnection(link: Link) {
    link.connectionType.Some? && link.connectionType.value != WIFI
  }

  function UuidNamespace(link: Link): string {
    match link.connectionType case Some(t) => t case None => "link"
  }

  function WantedWired(env: Env, link: Link): Wanted
    requires WantsConnection(link)
  {
    var kind := link.connectionType.value;
    var uuid := env.uuid(UuidNamespace(link), link.name);
    var extension := if kind == ETHERNET then "network" else "netdev";
    Wanted(uuid, kind, env.networkDir + "/" + link.name + "." + extension, BackendWired,
           LinkSettings(link.name, kind, uuid))
  }

  function WifiWishes(env: Env, interfaceName: string, networks: seq<KnownNetwork>): seq<Wanted> {
    if networks == [] then []
    else
      var rest := WifiWishes(env, interfaceName, networks[..|networks| - 1]);
      rest + [WantedWifi(env, interfaceName, networks[|networks| - 1])]
  }

  function WiredWishes(env: Env, links: seq<Link>): seq<Wanted> {
    if links == [] then []
    else
      var rest := WiredWishes(env, links[..|links| - 1]);
      var last := links[|links| - 1];
      if WantsConnection(last) then rest + [WantedWired(env, last)] else rest
  }

  /** Every connection the backends want, in the order the sync meets them. */
  function Wishes(env: Env, links: seq<Link>, iwd: Iwd): seq<Wanted> {
    WifiWishes(env, WirelessInterface(links), iwd.knownNetworks) + WiredWishes(env, links)
  }

  // ------------------------------------------------------------- access points

  function AccessPointOf(iwd: Iwd, network: Network, signal: int): AccessPoint {
    var address :=
      if network.extendedServiceSet == [] then ""
      else match Lookup(iwd.basicServiceSets, network.extendedServiceSet[0])
           case Some(bss) => bss.value
           case None => "";
    AccessPoint(network.name, address, network.kind, signal)
  }

  /** The access point entry of one visible network, if iwd knows the network object. */
  function Visible(env: Env, iwd: Iwd, ordered: OrderedNetwork): Option<Entry<AccessPoint>> {
    match Lookup(iwd.networks, ordered.path)
    case None => None
    case Some(n) => Some(Entry(AccessPointPath(env.uuid, ordered.path), AccessPointOf(iwd, n.value, ordered.signal)))
  }

  function AccessPointsOfStation(env: Env, iwd: Iwd, networks: seq<OrderedNetwork>): Table<AccessPoint> {
    if networks == [] then []
    else
      var rest := AccessPointsOfStation(env, iwd, networks[..|networks| - 1]);
      match Visible(env, iwd, networks[|networks| - 1])
      case Some(e) => rest + [e]
      case None => rest
  }

  function WantedAccessPoints(env: Env, iwd: Iwd, stations: Table<Station>): Table<AccessPoint> {
    if stations == [] then []
    else
      var rest := WantedAccessPoints(env, iwd, stations[..|stations| - 1]);
      rest + AccessPointsOfStation(env, iwd, stations[|stations| - 1].value.orderedNetworks)
  }

  // ------------------------------------------------------------------- devices

  /** The station behind an interface name. */
  function StationOf(iwd: Iwd, interfaceName: string): Option<Station> {
    match Lookup(iwd.devices, interfaceName)
    case None => None
    case Some(device) =>
      match Lookup(iwd.stations, device.value)
      case None => None
      case Some(station) => Some(station.value)
  }

  function PeersOf(env: Env, iwd: Iwd, interfaceName: string, networks: seq<OrderedNetwork>): seq<string> {
    if networks == [] then []
    else
      var rest := PeersOf(env, iwd, interfaceName, networks[..|networks| - 1]);
      var path := networks[|networks| - 1].path;
      if Lookup(iwd.networks, path).Some? then rest + [PeerPath(env.uuid, interfaceName, path)] else rest
  }

  function PeersOfLink(env: Env, iwd: Iwd, link: Link): seq<string> {
    if link.linkType == Wlan && link.isP2p && StationOf(iwd, link.name).Some?
    then PeersOf(env, iwd, link.name, StationOf(iwd, link.name).value.orderedNetworks)
    else []
  }

  function OptionalPath(present: bool, path: string): string {
    if present then path else "/"
  }

  function DeviceOf(env: Env, iwd: Iwd, link: Link): Device {
    Device(link.name,
           OptionalPath(link.hasIp4Config, ConfigPath(IP4_CONFIG, link.name)),
           OptionalPath(link.hasIp6Config, ConfigPath(IP6_CONFIG, link.name)),
           OptionalPath(link.hasDhcp4Config, ConfigPath(DHCP4_CONFIG, link.name)),
           OptionalPath(link.hasDhcp6Config, ConfigPath(DHCP6_CONFIG, link.name)),
           StartsWith(link.name, "ppp") || link.linkType == Ppp,
           link.kind, link.linkType, PeersOfLink(env, iwd, link), link.isP2p)
  }

  function DeviceEntry(env: Env, iwd: Iwd, link: Link): Entry<Device> {
    Entry(DevicePath(link.name), DeviceOf(env, iwd, link))
  }

  function WantedDevices(env: Env, iwd: Iwd, links: seq<Link>): Table<Device> {
    seq(|links|, i requires 0 <= i < |links| => DeviceEntry(env, iwd, links[i]))
  }

  // ---------------------------------------------------------- wireless devices

  function AccessPointPaths(env: Env, networks: seq<OrderedNetwork>): seq<string> {
    seq(|networks|, i requires 0 <= i < |networks| => AccessPointPath(env.uuid, networks[i].path))
  }

  function WirelessEntry(env: Env, iwd: Iwd, link: Link): Entry<WirelessDevice> {
    var bitrate := Min(Max(link.bitRates.0, link.bitRates.1) / 1000, U32_MAX);
    Entry(link.name,
          match StationOf(iwd, link.name)
          case None => WirelessDevice([], "/", bitrate, -1)
          case Some(station) =>
            WirelessDevice(
              AccessPointPaths(env, station.orderedNetworks),
              match station.connectedNetwork
              case Some(network) => AccessPointPath(env.uuid, network)
              case None => "/",
              bitrate, 0))
  }

  // -------------------------------------------------------- active connections

  /** The connection record behind a link, found by its uuid. */
  function ConnectionBehind(env: Env, iwd: Iwd, connections: Table<Connection>, link: Link): Option<Entry<Connection>> {
    if link.linkType == Wlan then
      match StationOf(iwd, link.name)
      case None => None
      case Some(station) =>
        match station.connectedNetwork
        case None => None
        case Some(path) =>
          match Lookup(iwd.networks, path)
          case None => None
          case Some(network) => LookupUuid(connections, env.uuid("wifi", network.value.knownNetwork))
    else LookupUuid(connections, env.uuid(UuidNamespace(link), link.name))
  }

  function ActiveOf(c: Entry<Connection>, interfaceName: string): ActiveConnection {
    ActiveConnection(c.path, true, [DevicePath(interfaceName)], c.value.Id(c.path),
                     c.value.connectionType, c.value.uuid)
  }

  predicate ShowsActive(env: Env, iwd: Iwd, connections: Table<Connection>, link: Link) {
    link.linkType != Loopback && link.isActive && ConnectionBehind(env, iwd, connections, link).Some?
  }

  function ActiveEntry(env: Env, iwd: Iwd, connections: Table<Connection>, link: Link): Entry<ActiveConnection>
    requires ShowsActive(env, iwd, connections, link)
  {
    Entry(ActivePath(link.name), ActiveOf(ConnectionBehind(env, iwd, connections, link).value, link.name))
  }

  /** The active connections the links ask for, in link order. */
  function WantedActives(env: Env, iwd: Iwd, connections: Table<Connection>,
                         links: seq<Link>): Table<ActiveConnection> {
    if links == [] then []
    else
      var rest := WantedActives(env, iwd, connections, links[..|links| - 1]);
      var last := links[|links| - 1];
      if ShowsActive(env, iwd, connections, last) then rest + [ActiveEntry(env, iwd, connections, last)] else rest
  }
}
