/** The backend reconciler: `SyncBackends` walks every table of the runtime, and the
    functions beside it say what each walk leaves and announces. */
module Sync {
  import opened Text
  import opened ObjectPaths
  import opened Tables
  import opened RuntimeState
  import opened RuntimeStore
  import opened Backends

  datatype Synced = Synced(state: State, log: seq<Signal>)

  // -------------------------------------------------------------- connections

  /** Update the record with the wanted uuid in place, or add one under a new path. */
  function UpsertWanted(y: Synced, w: Wanted): Synced {
    match LookupUuid(y.state.connections, w.uuid)
    case Some(existing) => Synced(AfterUpdateConnection(y.state, existing.path, Realized(w)), y.log)
    case None =>
      var path := SettingsPath(y.state.nextSettingsId);
      Synced(AfterAddConnection(AfterNextConnectionPath(y.state), Entry(path, Realized(w))),
             y.log + [Added(Object(Connections, path))])
  }

  function UpsertWishes(s: State, ws: seq<Wanted>): Synced {
    if ws == [] then Synced(s, []) else UpsertWanted(UpsertWishes(s, ws[..|ws| - 1]), ws[|ws| - 1])
  }

  lemma {:induction false} UpsertWishesSnoc(s: State, ws: seq<Wanted>, w: Wanted)
    ensures UpsertWishes(s, ws + [w]) == UpsertWanted(UpsertWishes(s, ws), w)
    ensures Uuids(ws + [w]) == Uuids(ws) + [w.uuid]
  {
    assert (ws + [w])[..|ws|] == ws;
  }

  function Uuids(ws: seq<Wanted>): seq<string> {
    seq(|ws|, i requires 0 <= i < |ws| => ws[i].uuid)
  }

  predicate IsStaleBackend(c: Connection, uuids: seq<string>) {
    c.origin != User && c.uuid !in uuids
  }

  function StaleBackends(t: Table<Connection>, uuids: seq<string>): seq<string> {
    if t == [] then []
    else
      var rest := StaleBackends(t[..|t| - 1], uuids);
      if IsStaleBackend(t[|t| - 1].value, uuids) then rest + [t[|t| - 1].path] else rest
  }

  function RemoveConnections(y: Synced, paths: seq<string>): Synced {
    if paths == [] then y
    else
      var before := RemoveConnections(y, paths[..|paths| - 1]);
      var path := paths[|paths| - 1];
      Synced(AfterRemoveConnection(before.state, path), before.log + [Removed(Object(Connections, path))])
  }

  function SyncedConnections(s: State, ws: seq<Wanted>): Synced {
    var upserted := UpsertWishes(s, ws);
    RemoveConnections(upserted, StaleBackends(upserted.state.connections, Uuids(ws)))
  }

  // ---------------------------------------------------------------- the tables

  function SyncedAccessPoints(t: Table<AccessPoint>, wanted: Table<AccessPoint>): Outcome<AccessPoint> {
    var upserted := UpsertAll(AccessPoints, t, wanted);
    var pruned := RemoveAll(AccessPoints, upserted.table, Stale(upserted.table, Paths(wanted)));
    Outcome(pruned.table, upserted.log + pruned.log)
  }

  function SyncedDevices(t: Table<Device>, wanted: Table<Device>): Outcome<Device> {
    var pruned := RemoveAll(Devices, t, Stale(t, Paths(wanted)));
    var upserted := UpsertAll(Devices, pruned.table, wanted);
    Outcome(upserted.table, pruned.log + upserted.log)
  }

  function SyncedActives(t: Table<ActiveConnection>, wanted: Table<ActiveConnection>): Outcome<ActiveConnection> {
    var pruned := RemoveAll(ActiveConnections, t, Stale(t, Paths(wanted)));
    var pushed := RepushAll(ActiveConnections, pruned.table, wanted);
    Outcome(pushed.table, pruned.log + pushed.log)
  }

  // ---------------------------------------------------------- wireless devices

  /** Wireless records go with the device records that are removed. */
  function DropWireless(w: Table<WirelessDevice>, devices: Table<Device>, stale: seq<string>): Table<WirelessDevice> {
    if stale == [] then w
    else
      var rest := DropWireless(w, devices, stale[..|stale| - 1]);
      match Lookup(devices, stale[|stale| - 1])
      case Some(d) => Without(rest, d.value.interfaceName)
      case None => rest
  }

  /** Syncing one device refreshes, drops or leaves the wireless record of its interface. */
  function WirelessOfDevice(env: Env, iwd: Iwd, w: Table<WirelessDevice>, link: Link): Table<WirelessDevice> {
    match link.linkType
    case Wlan => Upsert(w, WirelessEntry(env, iwd, link))
    case Ether => w
    case Loopback => w
    case _ => Without(w, link.name)
  }

  function WirelessOfDevices(env: Env, iwd: Iwd, w: Table<WirelessDevice>, links: seq<Link>): Table<WirelessDevice> {
    if links == [] then w
    else WirelessOfDevice(env, iwd, WirelessOfDevices(env, iwd, w, links[..|links| - 1]), links[|links| - 1])
  }

  function RefreshWireless(env: Env, iwd: Iwd, w: Table<WirelessDevice>, links: seq<Link>): Table<WirelessDevice> {
    if links == [] then w
    else
      var rest := RefreshWireless(env, iwd, w, links[..|links| - 1]);
      var last := links[|links| - 1];
      if last.linkType == Wlan then Upsert(rest, WirelessEntry(env, iwd, last)) else rest
  }

  function SyncedWireless(env: Env, iwd: Iwd, w: Table<WirelessDevice>, devices: Table<Device>, links: seq<Link>)
    : Table<WirelessDevice>
  {
    var dropped := DropWireless(w, devices, Stale(devices, Paths(WantedDevices(env, iwd, links))));
    RefreshWireless(env, iwd, WirelessOfDevices(env, iwd, dropped, links), links)
  }

  // ------------------------------------------------- config and peer announcements

  function ConfigPaths(d: Device): seq<string> {
    [d.ip4Config, d.ip6Config, d.dhcp4Config, d.dhcp6Config]
  }

  /** Announce the paths of `now` that are real and not in `before`. */
  function Announce(kind: Kind, added: bool, now: seq<string>, before: seq<string>): seq<Signal> {
    if now == [] then []
    else
      var rest := Announce(kind, added, now[..|now| - 1], before);
      var path := now[|now| - 1];
      if path in before || path == "/" then rest
      else rest + [if added then Added(Object(kind, path)) else Removed(Object(kind, path))]
  }

  /** Config objects that changed, then, for a link that is a P2P device, its peers. */
  function DeviceAux(existing: Option<Device>, device: Device): seq<Signal> {
    var oldConfigs := match existing case Some(d) => ConfigPaths(d) case None => [];
    var oldPeers := match existing case Some(d) => d.p2pPeers case None => [];
    Announce(Configs, false, oldConfigs, ConfigPaths(device))
    + Announce(Configs, true, ConfigPaths(device), oldConfigs)
    + (if device.wifiP2p
       then Announce(Peers, false, oldPeers, device.p2pPeers) + Announce(Peers, true, device.p2pPeers, oldPeers)
       else [])
  }

  function RemovedAux(device: Device): seq<Signal> {
    (if device.wifiP2p then Announce(Peers, false, device.p2pPeers, []) else [])
    + Announce(Configs, false, ConfigPaths(device), [])
  }

  function RemovedDevicesAux(devices: Table<Device>, stale: seq<string>): seq<Signal> {
    if stale == [] then []
    else
      var rest := RemovedDevicesAux(devices, stale[..|stale| - 1]);
      match Lookup(devices, stale[|stale| - 1])
      case Some(d) => rest + RemovedAux(d.value)
      case None => rest
  }

  function DevicesAux(t: Table<Device>, wanted: Table<Device>): seq<Signal> {
    if wanted == [] then []
    else
      var front, last := wanted[..|wanted| - 1], wanted[|wanted| - 1];
      var before := Lookup(UpsertAll(Devices, t, front).table, last.path);
      DevicesAux(t, front) + DeviceAux(if before.Some? then Some(before.value.value) else None, last.value)
  }

  function SyncedAux(t: Table<Device>, wanted: Table<Device>): seq<Signal> {
    var stale := Stale(t, Paths(wanted));
    RemovedDevicesAux(t, stale) + DevicesAux(RemoveAll(Devices, t, stale).table, wanted)
  }

  // ------------------------------------------------------------------ the whole

  /** The state and the object-manager signals of one completed sync. */
  function AfterSync(env: Env, s: State, links: seq<Link>, iwd: Iwd): Synced {
    var c := SyncedConnections(s, Wishes(env, links, iwd));
    var a := SyncedAccessPoints(s.accessPoints, WantedAccessPoints(env, iwd, iwd.stations));
    var d := SyncedDevices(s.devices, WantedDevices(env, iwd, links));
    var p := SyncedActives(s.activeConnections, WantedActives(env, iwd, c.state.connections, links));
    Synced(
      c.state.(accessPoints := a.table, devices := d.table, activeConnections := p.table,
               wirelessDevices := SyncedWireless(env, iwd, s.wirelessDevices, s.devices, links)),
      c.log + a.log + d.log + p.log)
  }

  // ------------------------------------------------------------------ the loops

  method UpsertBackendConnection(rt: Runtime, w: Wanted, log: seq<Signal>) returns (out: seq<Signal>)
    modifies rt
    ensures Synced(rt.Contents(), out) == UpsertWanted(Synced(old(rt.Contents()), log), w)
  {
    out := log;
    var existing := LookupUuid(rt.connections, w.uuid);
    if existing.Some? {
      assert existing.value.path in PathSet(rt.connections);
      var _ := rt.UpdateConnection(existing.value.path, _ => Realized(w));
    } else {
      var path := rt.NextConnectionPath();
      rt.AddConnection(Entry(path, Realized(w)));
      out := out + [Added(Object(Connections, path))];
    }
  }

  method UpsertWifiConnections(rt: Runtime, env: Env, interfaceName: string, networks: seq<KnownNetwork>)
    returns (desired: seq<string>, log: seq<Signal>)
    modifies rt
    ensures var ws := WifiWishes(env, interfaceName, networks);
            desired == Uuids(ws) && Synced(rt.Contents(), log) == UpsertWishes(old(rt.Contents()), ws)
  {
    desired, log := [], [];
    ghost var done: seq<Wanted> := [];
    for i := 0 to |networks|
      invariant done == WifiWishes(env, interfaceName, networks[..i]) && desired == Uuids(done)
      invariant Synced(rt.Contents(), log) == UpsertWishes(old(rt.Contents()), done)
    {
      var w := WantedWifi(env, interfaceName, networks[i]);
      desired := desired + [w.uuid];
      log := UpsertBackendConnection(rt, w, log);
      assert networks[..i + 1][..i] == networks[..i];
      UpsertWishesSnoc(old(rt.Contents()), done, w);
      done := done + [w];
    }
    assert networks[..|networks|] == networks;
  }

  lemma {:induction false} WiredWishesSnoc(env: Env, links: seq<Link>, i: nat)
    requires i < |links|
    ensures WiredWishes(env, links[..i + 1])
         == WiredWishes(env, links[..i]) + if WantsConnection(links[i]) then [WantedWired(env, links[i])] else []
  {
    assert links[..i + 1][..i] == links[..i];
  }

  lemma {:induction false} NoWiredWishes(env: Env, wifi: seq<Wanted>)
    ensures wifi + WiredWishes(env, []) == wifi
  {
  }

  method UpsertWiredConnections(rt: Runtime, env: Env, links: seq<Link>, desired0: seq<string>, log0: seq<Signal>,
                                ghost s: State, ghost wifi: seq<Wanted>)
    returns (desired: seq<string>, log: seq<Signal>)
    requires desired0 == Uuids(wifi) && Synced(rt.Contents(), log0) == UpsertWishes(s, wifi)
    modifies rt
    ensures var ws := wifi + WiredWishes(env, links);
            desired == Uuids(ws) && Synced(rt.Contents(), log) == UpsertWishes(s, ws)
  {
    hide WiredWishes, UpsertWishes, UpsertWanted, Uuids, WantedWired;
    desired, log := desired0, log0;
    ghost var done := wifi;
    NoWiredWishes(env, wifi);
    assert links[..0] == [];
    for i := 0 to |links|
      invariant done == wifi + WiredWishes(env, links[..i]) && desired == Uuids(done)
      invariant Synced(rt.Contents(), log) == UpsertWishes(s, done)
    {
      WiredWishesSnoc(env, links, i);
      if WantsConnection(links[i]) {
        var w := WantedWired(env, links[i]);
        desired := desired + [w.uuid];
        log := UpsertBackendConnection(rt, w, log);
        UpsertWishesSnoc(s, done, w);
        assert wifi + (WiredWishes(env, links[..i]) + [w]) == done + [w];
        done := done + [w];
      } else {
        assert WiredWishes(env, links[..i]) + [] == WiredWishes(env, links[..i]);
      }
    }
    assert links[..|links|] == links;
  }

  method SyncConnections(rt: Runtime, env: Env, links: seq<Link>, iwd: Iwd) returns (log: seq<Signal>)
    modifies rt
    ensures Synced(rt.Contents(), log) == SyncedConnections(old(rt.Contents()), Wishes(env, links, iwd))
  {
    ghost var s := rt.Contents();
    var interfaceName := WirelessInterface(links);
    var desired;
    desired, log := UpsertWifiConnections(rt, env, interfaceName, iwd.knownNetworks);
    desired, log := UpsertWiredConnections(rt, env, links, desired, log, s,
                                           WifiWishes(env, interfaceName, iwd.knownNetworks));
    ghost var y := Synced(rt.Contents(), log);
    var stale := StaleBackends(rt.connections, desired);
    for i := 0 to |stale|
      invariant Synced(rt.Contents(), log) == RemoveConnections(y, stale[..i])
    {
      var _ := rt.RemoveConnection(stale[i]);
      log := log + [Removed(Object(Connections, stale[i]))];
      assert stale[..i + 1][..i] == stale[..i];
    }
    assert stale[..|stale|] == stale;
  }

  method UpsertStationAccessPoints(rt: Runtime, env: Env, iwd: Iwd, networks: seq<OrderedNetwork>,
                                   ghost t: Table<AccessPoint>, ghost earlier: Table<AccessPoint>,
                                   desired0: seq<string>, log0: seq<Signal>)
    returns (desired: seq<string>, log: seq<Signal>)
    requires desired0 == Paths(earlier)
    requires Outcome(rt.accessPoints, log0) == UpsertAll(AccessPoints, t, earlier)
    modifies rt
    ensures var done := earlier + AccessPointsOfStation(env, iwd, networks);
            && desired == Paths(done)
            && Outcome(rt.accessPoints, log) == UpsertAll(AccessPoints, t, done)
    ensures rt.Contents() == old(rt.Contents()).(accessPoints := rt.accessPoints)
  {
    hide Upsert, Visible, Lookup;
    desired, log := desired0, log0;
    ghost var done := earlier;
    for j := 0 to |networks|
      invariant done == earlier + AccessPointsOfStation(env, iwd, networks[..j])
      invariant desired == Paths(done)
      invariant Outcome(rt.accessPoints, log) == UpsertAll(AccessPoints, t, done)
      invariant rt.Contents() == old(rt.Contents()).(accessPoints := rt.accessPoints)
    {
      assert networks[..j + 1][..j] == networks[..j];
      var visible := Visible(env, iwd, networks[j]);
      if visible.Some? {
        var record := visible.value;
        desired := desired + [record.path];
        var isNew := Lookup(rt.accessPoints, record.path).None?;
        rt.UpsertAccessPoint(record);
        if isNew {
          log := log + [Added(Object(AccessPoints, record.path))];
        }
        assert (done + [record])[..|done|] == done;
        done := done + [record];
      }
    }
    assert networks[..|networks|] == networks;
  }

  method PruneAccessPoints(rt: Runtime, desired: seq<string>) returns (log: seq<Signal>)
    modifies rt
    ensures Outcome(rt.accessPoints, log)
         == RemoveAll(AccessPoints, old(rt.accessPoints), Stale(old(rt.accessPoints), desired))
    ensures rt.Contents() == old(rt.Contents()).(accessPoints := rt.accessPoints)
  {
    hide Without;
    var present := rt.accessPoints;
    log := [];
    for i := 0 to |present|
      invariant Outcome(rt.accessPoints, log) == RemoveAll(AccessPoints, present, Stale(present[..i], desired))
      invariant rt.Contents() == old(rt.Contents()).(accessPoints := rt.accessPoints)
    {
      assert present[..i + 1][..i] == present[..i];
      if present[i].path !in desired {
        ghost var before := Stale(present[..i], desired);
        assert (before + [present[i].path])[..|before|] == before;
        rt.RemoveAccessPoint(present[i].path);
        log := log + [Removed(Object(AccessPoints, present[i].path))];
      }
    }
    assert present[..|present|] == present;
  }

  method SyncAccessPoints(rt: Runtime, env: Env, iwd: Iwd) returns (log: seq<Signal>)
    modifies rt
    ensures Outcome(rt.accessPoints, log)
         == SyncedAccessPoints(old(rt.accessPoints), WantedAccessPoints(env, iwd, iwd.stations))
    ensures rt.Contents() == old(rt.Contents()).(accessPoints := rt.accessPoints)
  {
    ghost var t := rt.accessPoints;
    var desired: seq<string> := [];
    log := [];
    for i := 0 to |iwd.stations|
      invariant var done := WantedAccessPoints(env, iwd, iwd.stations[..i]);
                desired == Paths(done) && Outcome(rt.accessPoints, log) == UpsertAll(AccessPoints, t, done)
      invariant rt.Contents() == old(rt.Contents()).(accessPoints := rt.accessPoints)
    {
      assert iwd.stations[..i + 1][..i] == iwd.stations[..i];
      desired, log := UpsertStationAccessPoints(rt, env, iwd, iwd.stations[i].value.orderedNetworks, t,
                                                WantedAccessPoints(env, iwd, iwd.stations[..i]), desired, log);
    }
    assert iwd.stations[..|iwd.stations|] == iwd.stations;
    var more := PruneAccessPoints(rt, desired);
    log := log + more;
  }

  lemma {:induction false} StillThere(t: Table<Device>, gone: seq<string>, path: string)
    requires Distinct(t) && path !in gone
    ensures Lookup(RemoveAll(Devices, t, gone).table, path) == Lookup(t, path)
  {
    RemoveAllShape(Devices, t, gone);
    var dead := set p | p in gone;
    ExceptMembers(t, dead);
    if path in PathSet(t) {
      var e := Lookup(Except(t, dead), path).value;
      var k :| 0 <= k < |t| && t[k] == e;
      DistinctLookup(t, k);
    }
  }

  /** One stale device goes, with its wireless record and what it announced. */
  method DropDevice(rt: Runtime, path: string) returns (log: seq<Signal>, aux: seq<Signal>)
    modifies rt
    ensures var found := Lookup(old(rt.devices), path);
            && log == (if found.Some? then [Removed(Object(Devices, path))] else [])
            && aux == (if found.Some? then RemovedAux(found.value.value) else [])
            && rt.Contents() == old(rt.Contents()).(
                 devices := Without(old(rt.devices), path),
                 wirelessDevices := if found.Some? then Without(old(rt.wirelessDevices),
                                                                found.value.value.interfaceName)
                                    else old(rt.wirelessDevices))
  {
    hide RemovedAux;
    log, aux := [], [];
    var record := rt.RemoveDevice(path);
    if record.Some? {
      rt.RemoveWirelessDevice(record.value.value.interfaceName);
      aux := RemovedAux(record.value.value);
      log := [Removed(Object(Devices, path))];
    }
  }

  method PruneDevices(rt: Runtime, desired: seq<string>) returns (log: seq<Signal>, aux: seq<Signal>)
    requires Distinct(rt.devices)
    modifies rt
    ensures var stale := Stale(old(rt.devices), desired);
            && Outcome(rt.devices, log) == RemoveAll(Devices, old(rt.devices), stale)
            && aux == RemovedDevicesAux(old(rt.devices), stale)
            && rt.wirelessDevices == DropWireless(old(rt.wirelessDevices), old(rt.devices), stale)
    ensures rt.Contents() == old(rt.Contents()).(devices := rt.devices, wirelessDevices := rt.wirelessDevices)
  {
    hide Without, RemovedAux, Lookup, Distinct, RemoveAll, Stale, RemovedDevicesAux, DropWireless;
    var present := rt.devices;
    log, aux := [], [];
    PruneNone(present, rt.wirelessDevices, desired);
    for i := 0 to |present|
      invariant Outcome(rt.devices, log) == RemoveAll(Devices, present, Stale(present[..i], desired))
      invariant aux == RemovedDevicesAux(present, Stale(present[..i], desired))
      invariant rt.wirelessDevices == DropWireless(old(rt.wirelessDevices), present, Stale(present[..i], desired))
      invariant rt.Contents() == old(rt.Contents()).(devices := rt.devices, wirelessDevices := rt.wirelessDevices)
    {
      var path := present[i].path;
      PruneStep(present, old(rt.wirelessDevices), desired, i);
      if path !in desired {
        StillThereAt(present, Stale(present[..i], desired), desired, i);
        var dropped, gone := DropDevice(rt, path);
        log, aux := log + dropped, aux + gone;
      }
    }
    assert present[..|present|] == present;
  }

  lemma {:induction false} PruneNone(t: Table<Device>, w: Table<WirelessDevice>, desired: seq<string>)
    ensures var stale := Stale(t[..0], desired);
            && RemoveAll(Devices, t, stale) == Outcome(t, [])
            && RemovedDevicesAux(t, stale) == [] && DropWireless(w, t, stale) == w
  {
  }

  /** What one more device adds to the walk. */
  lemma {:induction false} PruneStep(t: Table<Device>, w: Table<WirelessDevice>, desired: seq<string>, i: nat)
    requires Distinct(t) && i < |t|
    ensures var before, after, path := Stale(t[..i], desired), Stale(t[..i + 1], desired), t[i].path;
            if path in desired then after == before
            else
              var o := RemoveAll(Devices, t, before);
              && RemoveAll(Devices, t, after)
                 == Outcome(Without(o.table, path), o.log + [Removed(Object(Devices, path))])
              && RemovedDevicesAux(t, after) == RemovedDevicesAux(t, before) + RemovedAux(t[i].value)
              && DropWireless(w, t, after) == Without(DropWireless(w, t, before), t[i].value.interfaceName)
  {
    hide RemovedAux, Without, Distinct;
    DistinctLookup(t, i);
    hide Lookup;
    var before := Stale(t[..i], desired);
    assert t[..i + 1][..i] == t[..i];
    assert (before + [t[i].path])[..|before|] == before;
  }

  lemma {:induction false} StillThereAt(t: Table<Device>, gone: seq<string>, desired: seq<string>, i: nat)
    requires Distinct(t) && i < |t| && gone == Stale(t[..i], desired)
    ensures Lookup(t, t[i].path) == Some(t[i])
    ensures Lookup(RemoveAll(Devices, t, gone).table, t[i].path) == Some(t[i])
  {
    StaleMembers(t[..i], desired);
    DistinctLookup(t, i);
    StillThere(t, gone, t[i].path);
  }

  method UpsertDevices(rt: Runtime, env: Env, links: seq<Link>, iwd: Iwd) returns (log: seq<Signal>, aux: seq<Signal>)
    modifies rt
    ensures var wanted := WantedDevices(env, iwd, links);
            && Outcome(rt.devices, log) == UpsertAll(Devices, old(rt.devices), wanted)
            && aux == DevicesAux(old(rt.devices), wanted)
            && rt.wirelessDevices == WirelessOfDevices(env, iwd, old(rt.wirelessDevices), links)
    ensures rt.Contents() == old(rt.Contents()).(devices := rt.devices, wirelessDevices := rt.wirelessDevices)
  {
    hide DeviceOf, DevicePath, Upsert, WirelessOfDevice, DeviceAux, Lookup;
    ghost var wanted, t, w := WantedDevices(env, iwd, links), rt.devices, rt.wirelessDevices;
    log, aux := [], [];
    for i := 0 to |links|
      invariant Outcome(rt.devices, log) == UpsertAll(Devices, t, wanted[..i])
      invariant aux == DevicesAux(t, wanted[..i])
      invariant rt.wirelessDevices == WirelessOfDevices(env, iwd, w, links[..i])
      invariant rt.Contents() == old(rt.Contents()).(devices := rt.devices, wirelessDevices := rt.wirelessDevices)
    {
      assert wanted[..i + 1][..i] == wanted[..i] && links[..i + 1][..i] == links[..i];
      assert wanted[i] == DeviceEntry(env, iwd, links[i]);
      var isNew, more := SyncDeviceObject(rt, env, links[i], iwd);
      aux := aux + more;
      if isNew {
        log := log + [Added(Object(Devices, DevicePath(links[i].name)))];
      }
    }
    assert wanted[..|links|] == wanted && links[..|links|] == links;
  }

  method SyncDevices(rt: Runtime, env: Env, links: seq<Link>, iwd: Iwd) returns (log: seq<Signal>, aux: seq<Signal>)
    requires Distinct(rt.devices)
    modifies rt
    ensures var wanted := WantedDevices(env, iwd, links);
            && Outcome(rt.devices, log) == SyncedDevices(old(rt.devices), wanted)
            && aux == SyncedAux(old(rt.devices), wanted)
            && rt.wirelessDevices == WirelessOfDevices(env, iwd,
                 DropWireless(old(rt.wirelessDevices), old(rt.devices), Stale(old(rt.devices), Paths(wanted))), links)
    ensures rt.Contents() == old(rt.Contents()).(devices := rt.devices, wirelessDevices := rt.wirelessDevices)
  {
    var desired := seq(|links|, i requires 0 <= i < |links| => DevicePath(links[i].name));
    assert desired == Paths(WantedDevices(env, iwd, links));
    hide WantedDevices, Distinct;
    log, aux := PruneDevices(rt, desired);
    var added, changed := UpsertDevices(rt, env, links, iwd);
    log, aux := log + added, aux + changed;
  }

  method SyncDeviceObject(rt: Runtime, env: Env, link: Link, iwd: Iwd) returns (isNew: bool, aux: seq<Signal>)
    modifies rt
    ensures var e := DeviceEntry(env, iwd, link);
            var existing := Lookup(old(rt.devices), e.path);
            && isNew == existing.None?
            && aux == DeviceAux(if existing.Some? then Some(existing.value.value) else None, e.value)
            && rt.Contents() == old(rt.Contents()).(
                 devices := Upsert(old(rt.devices), e),
                 wirelessDevices := WirelessOfDevice(env, iwd, old(rt.wirelessDevices), link))
  {
    hide DevicePath, Upsert, WirelessEntry, Without, Lookup, ConfigPaths;
    var path := DevicePath(link.name);
    var existing := Lookup(rt.devices, path);
    var device := DeviceOf(env, iwd, link);
    var oldConfigs, oldPeers := [], [];
    if existing.Some? {
      oldConfigs, oldPeers := ConfigPaths(existing.value.value), existing.value.value.p2pPeers;
    }
    aux := Announce(Configs, false, oldConfigs, ConfigPaths(device))
         + Announce(Configs, true, ConfigPaths(device), oldConfigs);
    match link.linkType {
      case Wlan => rt.UpsertWirelessDevice(WirelessEntry(env, iwd, link));
      case Ether =>
      case Loopback =>
      case _ => rt.RemoveWirelessDevice(link.name);
    }
    rt.UpsertDevice(Entry(path, device));
    isNew := existing.None?;
    if link.isP2p {
      aux := aux + (Announce(Peers, false, oldPeers, device.p2pPeers)
                    + Announce(Peers, true, device.p2pPeers, oldPeers));
    } else {
      aux := aux + [];
    }
  }

  method RefreshWirelessDevices(rt: Runtime, env: Env, links: seq<Link>, iwd: Iwd)
    modifies rt
    ensures rt.Contents() == old(rt.Contents()).(
              wirelessDevices := RefreshWireless(env, iwd, old(rt.wirelessDevices), links))
  {
    for i := 0 to |links|
      invariant rt.Contents() == old(rt.Contents()).(
                  wirelessDevices := RefreshWireless(env, iwd, old(rt.wirelessDevices), links[..i]))
    {
      assert links[..i + 1][..i] == links[..i];
      if links[i].linkType == Wlan {
        rt.UpsertWirelessDevice(WirelessEntry(env, iwd, links[i]));
      }
    }
    assert links[..|links|] == links;
  }

  method PruneActives(rt: Runtime, desired: seq<string>) returns (log: seq<Signal>)
    modifies rt
    ensures Outcome(rt.activeConnections, log)
         == RemoveAll(ActiveConnections, old(rt.activeConnections), Stale(old(rt.activeConnections), desired))
    ensures rt.Contents() == old(rt.Contents()).(activeConnections := rt.activeConnections)
  {
    hide Without;
    var present := rt.activeConnections;
    log := [];
    for i := 0 to |present|
      invariant Outcome(rt.activeConnections, log)
             == RemoveAll(ActiveConnections, present, Stale(present[..i], desired))
      invariant rt.Contents() == old(rt.Contents()).(activeConnections := rt.activeConnections)
    {
      assert present[..i + 1][..i] == present[..i];
      if present[i].path !in desired {
        ghost var before := Stale(present[..i], desired);
        assert (before + [present[i].path])[..|before|] == before;
        var _ := rt.RemoveActiveConnection(present[i].path);
        log := log + [Removed(Object(ActiveConnections, present[i].path))];
      }
    }
    assert present[..|present|] == present;
  }

  method PushActives(rt: Runtime, wanted: Table<ActiveConnection>) returns (log: seq<Signal>)
    modifies rt
    ensures Outcome(rt.activeConnections, log) == RepushAll(ActiveConnections, old(rt.activeConnections), wanted)
    ensures rt.Contents() == old(rt.Contents()).(activeConnections := rt.activeConnections)
  {
    hide Repush, Lookup;
    log := [];
    for i := 0 to |wanted|
      invariant Outcome(rt.activeConnections, log)
             == RepushAll(ActiveConnections, old(rt.activeConnections), wanted[..i])
      invariant rt.Contents() == old(rt.Contents()).(activeConnections := rt.activeConnections)
    {
      assert wanted[..i + 1][..i] == wanted[..i];
      var isNew := Lookup(rt.activeConnections, wanted[i].path).None?;
      rt.AddActiveConnection(wanted[i]);
      if isNew {
        log := log + [Added(Object(ActiveConnections, wanted[i].path))];
      }
    }
    assert wanted[..|wanted|] == wanted;
  }

  method SyncActives(rt: Runtime, env: Env, links: seq<Link>, iwd: Iwd) returns (log: seq<Signal>)
    modifies rt
    ensures Outcome(rt.activeConnections, log)
         == SyncedActives(old(rt.activeConnections), WantedActives(env, iwd, old(rt.connections), links))
    ensures rt.Contents() == old(rt.Contents()).(
              activeConnections := rt.activeConnections,
              wirelessDevices := RefreshWireless(env, iwd, old(rt.wirelessDevices), links))
  {
    var wanted := WantedActives(env, iwd, rt.connections, links);
    RefreshWirelessDevices(rt, env, links, iwd);
    log := PruneActives(rt, Paths(wanted));
    var added := PushActives(rt, wanted);
    log := log + added;
  }

  /** One completed sync: the new state and the object-manager signals in order; the
      signals for config objects and P2P peers come in a log of their own. */
  method SyncBackends(rt: Runtime, env: Env, links: seq<Link>, iwd: Iwd) returns (log: seq<Signal>, aux: seq<Signal>)
    requires Distinct(rt.devices)
    modifies rt
    ensures Synced(rt.Contents(), log) == AfterSync(env, old(rt.Contents()), links, iwd)
    ensures aux == SyncedAux(old(rt.devices), WantedDevices(env, iwd, links))
  {
    ghost var s := rt.Contents();
    log := SyncConnections(rt, env, links, iwd);
    SyncedConnectionsFrame(s, Wishes(env, links, iwd));
    var more := SyncAccessPoints(rt, env, iwd);
    log := log + more;
    more, aux := SyncDevices(rt, env, links, iwd);
    log := log + more;
    more := SyncActives(rt, env, links, iwd);
    log := log + more;
  }

  lemma {:induction false} UpsertWishesFrame(s: State, ws: seq<Wanted>)
    ensures var r := UpsertWishes(s, ws).state;
            r == s.(connections := r.connections, nextSettingsId := r.nextSettingsId, versionId := r.versionId)
  {
    if ws != [] {
      UpsertWishesFrame(s, ws[..|ws| - 1]);
    }
  }

  lemma {:induction false} RemoveConnectionsFrame(y: Synced, paths: seq<string>)
    ensures var r := RemoveConnections(y, paths).state;
            r == y.state.(connections := r.connections, versionId := r.versionId)
  {
    if paths != [] {
      RemoveConnectionsFrame(y, paths[..|paths| - 1]);
    }
  }

  /** The connection phase touches nothing but the connections and the two counters. */
  lemma {:induction false} SyncedConnectionsFrame(s: State, ws: seq<Wanted>)
    ensures var r := SyncedConnections(s, ws).state;
            r == s.(connections := r.connections, nextSettingsId := r.nextSettingsId, versionId := r.versionId)
  {
    UpsertWishesFrame(s, ws);
    var upserted := UpsertWishes(s, ws);
    RemoveConnectionsFrame(upserted, StaleBackends(upserted.state.connections, Uuids(ws)));
  }
}
