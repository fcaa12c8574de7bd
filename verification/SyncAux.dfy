/** The announcements of config objects and P2P peers that go with each device. */
module SyncAuxTheorems {
  import opened Text
  import opened ObjectPaths
  import opened Tables
  import opened RuntimeState
  import opened Backends
  import opened Sync
  import opened SyncTheorems

  /** The objects behind a list of paths, the root path standing for none. */
  ghost function Real(kind: Kind, paths: seq<string>): set<Object> {
    set p | p in paths && p != "/" :: Object(kind, p)
  }

  /** No real path is listed twice. */
  ghost predicate RealOnce(paths: seq<string>) {
    forall i, j :: 0 <= i < j < |paths| && paths[i] != "/" ==> paths[i] != paths[j]
  }

  lemma {:induction false} AnnounceMembers(kind: Kind, added: bool, now: seq<string>, before: seq<string>)
    ensures var log := Announce(kind, added, now, before);
            && (forall s :: s in log ==> s.Added? == added)
            && (forall o :: Mentions(log, o) <==> o in Real(kind, now) && o.path !in before)
  {
    if now != [] {
      var front, last := now[..|now| - 1], now[|now| - 1];
      assert now == front + [last];
      AnnounceMembers(kind, added, front, before);
      var rest, log := Announce(kind, added, front, before), Announce(kind, added, now, before);
      assert last in now && forall p :: p in now <==> p in front || p == last;
      forall o ensures Mentions(log, o) <==> o in Real(kind, now) && o.path !in before {
        assert Mentions(rest, o) <==> o in Real(kind, front) && o.path !in before;
        assert o in Real(kind, now) <==> o in Real(kind, front) || (o == Object(kind, last) && last != "/");
      }
    }
  }

  lemma {:induction false} AnnounceOnce(kind: Kind, added: bool, now: seq<string>, before: seq<string>)
    requires RealOnce(now)
    ensures EachOnce(Announce(kind, added, now, before))
  {
    if now != [] {
      var front, last := now[..|now| - 1], now[|now| - 1];
      AnnounceOnce(kind, added, front, before);
      AnnounceMembers(kind, added, front, before);
      var rest := Announce(kind, added, front, before);
      if last != "/" {
        forall i | 0 <= i < |rest| ensures rest[i].subject != Object(kind, last) {
          assert rest[i] in rest && (rest[i] == Added(rest[i].subject) || rest[i] == Removed(rest[i].subject));
          assert Mentions(rest, rest[i].subject);
          var k :| 0 <= k < |front| && front[k] == rest[i].subject.path;
          assert now[k] != "/" && now[k] != now[|now| - 1];
        }
      }
    }
  }

  lemma {:induction false} AnnounceFacts(kind: Kind, added: bool, now: seq<string>, before: seq<string>)
    ensures var log := Announce(kind, added, now, before);
            && (forall s :: s in log ==> s.Added? == added)
            && (forall o :: Mentions(log, o) <==> o in Real(kind, now) && o.path !in before)
            && (RealOnce(now) ==> EachOnce(log))
  {
    AnnounceMembers(kind, added, now, before);
    if RealOnce(now) {
      AnnounceOnce(kind, added, now, before);
    }
  }

  /** Announcing what went, then what came, is exact when no path is listed twice. */
  lemma {:induction false} AnnounceExact(kind: Kind, before: seq<string>, now: seq<string>)
    requires RealOnce(before) && RealOnce(now)
    ensures Exact(Real(kind, before), Announce(kind, false, before, now) + Announce(kind, true, now, before),
                  Real(kind, now))
  {
    var gone, came := Announce(kind, false, before, now), Announce(kind, true, now, before);
    AnnounceFacts(kind, false, before, now);
    AnnounceFacts(kind, true, now, before);
    var a, c := Real(kind, before), Real(kind, now);
    var b := a * c;
    assert forall o :: Removed(o) in gone <==> Mentions(gone, o);
    assert forall o :: Added(o) in came <==> Mentions(came, o);
    assert Exact(a, gone, b) && Exact(b, came, c);
    ExactThen(a, gone, b, came, c);
  }

  /** The four config paths of a device record, as every sync writes them. */
  ghost predicate HasConfigsOf(d: Device, name: string) {
    && (d.ip4Config == "/" || d.ip4Config == ConfigPath(IP4_CONFIG, name))
    && (d.ip6Config == "/" || d.ip6Config == ConfigPath(IP6_CONFIG, name))
    && (d.dhcp4Config == "/" || d.dhcp4Config == ConfigPath(DHCP4_CONFIG, name))
    && (d.dhcp6Config == "/" || d.dhcp6Config == ConfigPath(DHCP6_CONFIG, name))
  }

  lemma {:induction false} ChildrenDiffer(a: string, b: string, name: string)
    requires a != b && '/' !in a && '/' !in b && '/' !in name
    ensures ROOT + "/" + a + "/" + name != ROOT + "/" + b + "/" + name
  {
    LastSegmentAfterSlash(ROOT, a);
    LastSegmentAfterSlash(ROOT, b);
    var x, y := ROOT + "/" + a + "/" + name, ROOT + "/" + b + "/" + name;
    assert x[..|x| - |name| - 1] == ROOT + "/" + a;
    assert y[..|y| - |name| - 1] == ROOT + "/" + b;
  }

  lemma {:induction false} ConfigsOnce(d: Device, name: string)
    requires HasConfigsOf(d, name)
    ensures RealOnce(ConfigPaths(d))
  {
    SegmentIsElement(name);
    var e := Segment(name);
    ChildrenDiffer("IP4Config", "IP6Config", e);
    ChildrenDiffer("IP4Config", "DHCP4Config", e);
    ChildrenDiffer("IP4Config", "DHCP6Config", e);
    ChildrenDiffer("IP6Config", "DHCP4Config", e);
    ChildrenDiffer("IP6Config", "DHCP6Config", e);
    ChildrenDiffer("DHCP4Config", "DHCP6Config", e);
  }

  ghost function OldConfigs(existing: Option<Device>): seq<string> {
    match existing case Some(d) => ConfigPaths(d) case None => []
  }

  ghost function OldPeers(existing: Option<Device>): seq<string> {
    match existing case Some(d) => d.p2pPeers case None => []
  }

  /** Syncing a device announces exactly the config objects that came and went. The rest of
      its announcements are about peers. */
  lemma {:induction false} ConfigsExact(env: Env, iwd: Iwd, link: Link, existing: Option<Device>)
    requires existing.Some? ==> HasConfigsOf(existing.value, link.name)
    ensures var device := DeviceOf(env, iwd, link);
            var configs := Announce(Configs, false, OldConfigs(existing), ConfigPaths(device))
                         + Announce(Configs, true, ConfigPaths(device), OldConfigs(existing));
            && configs <= DeviceAux(existing, device)
            && Exact(Real(Configs, OldConfigs(existing)), configs, Real(Configs, ConfigPaths(device)))
            && (forall i :: |configs| <= i < |DeviceAux(existing, device)|
                  ==> DeviceAux(existing, device)[i].subject.kind == Peers)
  {
    var device := DeviceOf(env, iwd, link);
    if existing.Some? {
      ConfigsOnce(existing.value, link.name);
    }
    ConfigsOnce(device, link.name);
    AnnounceExact(Configs, OldConfigs(existing), ConfigPaths(device));
    var configs := Announce(Configs, false, OldConfigs(existing), ConfigPaths(device))
                 + Announce(Configs, true, ConfigPaths(device), OldConfigs(existing));
    var peers := PeerAux(existing, device);
    assert DeviceAux(existing, device) == configs + peers;
    AnnounceFacts(Peers, false, OldPeers(existing), device.p2pPeers);
    AnnounceFacts(Peers, true, device.p2pPeers, OldPeers(existing));
    forall i | 0 <= i < |peers| ensures peers[i].subject.kind == Peers {
      assert peers[i] in peers;
      assert peers[i] == Added(peers[i].subject) || peers[i] == Removed(peers[i].subject);
    }
  }

  /** The peer part of a device's announcements. */
  ghost function PeerAux(existing: Option<Device>, device: Device): seq<Signal> {
    if device.wifiP2p
    then Announce(Peers, false, OldPeers(existing), device.p2pPeers)
         + Announce(Peers, true, device.p2pPeers, OldPeers(existing))
    else []
  }

  /** A client that follows the peer announcements ends with the device's peers exactly when
      the link still is a P2P device or the old record had no peers: a link that stops being
      a P2P device drops its peers without a signal. */
  lemma {:induction false} PeersFollowed(env: Env, iwd: Iwd, link: Link, existing: Option<Device>)
    requires RealOnce(OldPeers(existing)) && RealOnce(DeviceOf(env, iwd, link).p2pPeers)
    ensures var device := DeviceOf(env, iwd, link);
            Replay(Real(Peers, OldPeers(existing)), PeerAux(existing, device)) == Real(Peers, device.p2pPeers)
            <==> link.isP2p || Real(Peers, OldPeers(existing)) == {}
  {
    var device := DeviceOf(env, iwd, link);
    if link.isP2p {
      AnnounceExact(Peers, OldPeers(existing), device.p2pPeers);
      ExactReplay(Real(Peers, OldPeers(existing)), PeerAux(existing, device), Real(Peers, device.p2pPeers));
    } else {
      assert device.p2pPeers == [];
      assert Real(Peers, device.p2pPeers) == {};
    }
  }

  lemma {:induction false} AnnounceNothing(kind: Kind, added: bool, now: seq<string>, before: seq<string>)
    requires forall p :: p in now ==> p in before
    ensures Announce(kind, added, now, before) == []
  {
    if now != [] {
      assert now[|now| - 1] in now && forall p :: p in now[..|now| - 1] ==> p in now;
      AnnounceNothing(kind, added, now[..|now| - 1], before);
    }
  }

  lemma {:induction false} DeviceAuxQuiet(d: Device)
    ensures DeviceAux(Some(d), d) == []
  {
    AnnounceNothing(Configs, false, ConfigPaths(d), ConfigPaths(d));
    AnnounceNothing(Configs, true, ConfigPaths(d), ConfigPaths(d));
    AnnounceNothing(Peers, false, d.p2pPeers, d.p2pPeers);
    AnnounceNothing(Peers, true, d.p2pPeers, d.p2pPeers);
  }

  lemma {:induction false} DevicesAuxQuiet(t: Table<Device>, wanted: Table<Device>)
    requires Distinct(t) && Distinct(wanted)
    requires forall e :: e in wanted ==> Lookup(t, e.path) == Some(e)
    ensures DevicesAux(t, wanted) == []
  {
    if wanted != [] {
      var front, last := wanted[..|wanted| - 1], wanted[|wanted| - 1];
      Unsnoc(wanted);
      assert last in wanted && forall e :: e in front ==> e in wanted;
      DevicesAuxQuiet(t, front);
      forall p | Latest(front, p).Some? ensures Lookup(t, p) == Latest(front, p) {
        LatestIn(front, p);
      }
      UpsertAllAgain(Devices, t, front);
      DeviceAuxQuiet(last.value);
    }
  }

  lemma {:induction false} LatestIn<V>(es: Table<V>, path: string)
    ensures Latest(es, path).Some? ==> Latest(es, path).value in es
  {
    if es != [] {
      assert es == es[..|es| - 1] + [es[|es| - 1]];
      LatestIn(es[..|es| - 1], path);
    }
  }

  lemma {:induction false} DevicePathInjective(a: string, b: string)
    requires DevicePath(a) == DevicePath(b)
    ensures Segment(a) == Segment(b)
  {
    LastSegmentOfDevicePath(a);
    LastSegmentOfDevicePath(b);
  }

  /** A second sync announces no config object and no peer either, when no two interface
      names share a path element. */
  lemma {:induction false} SecondSyncAuxQuiet(env: Env, s: State, links: seq<Link>, iwd: Iwd)
    requires Ready(s) && DistinctElements(links)
    ensures SyncedAux(AfterSync(env, s, links, iwd).state.devices, WantedDevices(env, iwd, links)) == []
  {
    var wanted := WantedDevices(env, iwd, links);
    var once := AfterSync(env, s, links, iwd).state.devices;
    SyncedDevicesFacts(s.devices, wanted);
    SyncedDevicesAgain(s.devices, wanted);
    forall i, j | 0 <= i < j < |wanted| ensures wanted[i].path != wanted[j].path {
      assert Segment(links[i].name) != Segment(links[j].name);
      if wanted[i].path == wanted[j].path {
        DevicePathInjective(links[i].name, links[j].name);
      }
    }
    forall e | e in wanted ensures Lookup(once, e.path) == Some(e) {
      var i :| 0 <= i < |wanted| && wanted[i] == e;
      LatestDistinct(wanted, i);
    }
    DevicesAuxQuiet(once, wanted);
  }

  // ------------------------------------------------------------ signal by signal

  predicate IsConfigOf(d: Option<Device>, p: string) {
    d.Some? && p != "/"
    && (p == d.value.ip4Config || p == d.value.ip6Config || p == d.value.dhcp4Config || p == d.value.dhcp6Config)
  }

  predicate IsPeerOf(d: Option<Device>, p: string) {
    d.Some? && p != "/" && p in d.value.p2pPeers
  }

  lemma {:induction false} AnnouncedOne(kind: Kind, added: bool, now: seq<string>, before: seq<string>, o: Object)
    ensures Added(o) in Announce(kind, added, now, before)
            <==> added && o.kind == kind && o.path in now && o.path != "/" && o.path !in before
    ensures Removed(o) in Announce(kind, added, now, before)
            <==> !added && o.kind == kind && o.path in now && o.path != "/" && o.path !in before
  {
    AnnounceMembers(kind, added, now, before);
  }

  lemma {:induction false} ConfigInList(d: Option<Device>, p: string)
    ensures IsConfigOf(d, p) <==> p != "/" && p in OldConfigs(d)
  {
  }

  /** Every config object that comes or goes with a device is announced, and nothing else of that kind. */
  lemma {:induction false} ConfigSignals(existing: Option<Device>, device: Device, p: string)
    ensures var log, o := DeviceAux(existing, device), Object(Configs, p);
            && (Added(o) in log <==> IsConfigOf(Some(device), p) && !IsConfigOf(existing, p))
            && (Removed(o) in log <==> IsConfigOf(existing, p) && !IsConfigOf(Some(device), p))
  {
    var o, old_, now := Object(Configs, p), OldConfigs(existing), ConfigPaths(device);
    AnnouncedOne(Configs, false, old_, now, o);
    AnnouncedOne(Configs, true, now, old_, o);
    AnnouncedOne(Peers, false, OldPeers(existing), device.p2pPeers, o);
    AnnouncedOne(Peers, true, device.p2pPeers, OldPeers(existing), o);
    assert ConfigPaths(device) == OldConfigs(Some(device));
    ConfigInList(existing, p);
    ConfigInList(Some(device), p);
    hide Announce, IsConfigOf, ConfigPaths;
    assert DeviceAux(existing, device)
        == Announce(Configs, false, old_, now) + Announce(Configs, true, now, old_) + PeerAux(existing, device);
  }

  /** And every peer that comes or goes, as long as the link is a P2P device. */
  lemma {:induction false} PeerSignals(existing: Option<Device>, device: Device, p: string)
    ensures var log, o := DeviceAux(existing, device), Object(Peers, p);
            && (Added(o) in log <==> device.wifiP2p && IsPeerOf(Some(device), p) && !IsPeerOf(existing, p))
            && (Removed(o) in log <==> device.wifiP2p && IsPeerOf(existing, p) && !IsPeerOf(Some(device), p))
  {
    var o, old_, now := Object(Peers, p), OldConfigs(existing), ConfigPaths(device);
    AnnouncedOne(Configs, false, old_, now, o);
    AnnouncedOne(Configs, true, now, old_, o);
    AnnouncedOne(Peers, false, OldPeers(existing), device.p2pPeers, o);
    AnnouncedOne(Peers, true, device.p2pPeers, OldPeers(existing), o);
    hide Announce, ConfigPaths;
    assert DeviceAux(existing, device)
        == Announce(Configs, false, old_, now) + Announce(Configs, true, now, old_) + PeerAux(existing, device);
  }

  /** A device that goes takes its config objects along, and its peers if it is a P2P device. */
  lemma {:induction false} RemovedSignals(device: Device, o: Object)
    ensures Added(o) !in RemovedAux(device)
    ensures Removed(o) in RemovedAux(device)
            <==> (o.kind == Configs && IsConfigOf(Some(device), o.path))
                 || (o.kind == Peers && device.wifiP2p && IsPeerOf(Some(device), o.path))
  {
    AnnouncedOne(Peers, false, device.p2pPeers, [], o);
    AnnouncedOne(Configs, false, ConfigPaths(device), [], o);
    assert ConfigPaths(device) == OldConfigs(Some(device));
    ConfigInList(Some(device), o.path);
    hide Announce, IsConfigOf, ConfigPaths;
  }

  function OldRecord(t: Table<Device>, path: string): Option<Device> {
    match Lookup(t, path) case Some(e) => Some(e.value) case None => None
  }

  lemma {:induction false} SyncedDeviceSignals(t: Table<Device>, wanted: Table<Device>, g: Signal)
    requires Distinct(t) && Distinct(wanted)
    ensures g in DevicesAux(t, wanted) <==> exists e :: e in wanted && g in DeviceAux(OldRecord(t, e.path), e.value)
  {
    if wanted != [] {
      var front, last := wanted[..|wanted| - 1], wanted[|wanted| - 1];
      Unsnoc(wanted);
      SyncedDeviceSignals(t, front, g);
      UpsertAllShape(Devices, t, front);
      LatestMember(front, last.path);
      hide DeviceAux, UpsertAll, Distinct;
      var before := Lookup(UpsertAll(Devices, t, front).table, last.path);
      assert before == Lookup(t, last.path);
      assert DevicesAux(t, wanted) == DevicesAux(t, front) + DeviceAux(OldRecord(t, last.path), last.value);
      assert forall e :: e in wanted <==> e in front || e == last;
    }
  }

  lemma {:induction false} RemovedDeviceSignals(t: Table<Device>, stale: seq<string>, g: Signal)
    requires Distinct(t) && forall p :: p in stale ==> p in PathSet(t)
    ensures g in RemovedDevicesAux(t, stale) <==> exists e :: e in t && e.path in stale && g in RemovedAux(e.value)
  {
    if stale != [] {
      var front, last := stale[..|stale| - 1], stale[|stale| - 1];
      assert stale == front + [last] && last in stale && forall p :: p in front ==> p in stale;
      RemovedDeviceSignals(t, front, g);
      var d := Lookup(t, last).value;
      hide RemovedAux, Lookup;
      assert RemovedDevicesAux(t, stale) == RemovedDevicesAux(t, front) + RemovedAux(d.value);
      forall e | e in t && e.path == last ensures e == d {
        var i :| 0 <= i < |t| && t[i] == e;
        var j :| 0 <= j < |t| && t[j] == d;
        assert !(i < j) && !(j < i);
      }
    }
  }

  /** The config and peer signals of a sync: those of every device that is no longer wanted, and those of every
      wanted device against the record it had, if it had one. */
  lemma {:induction false} AuxSignals(t: Table<Device>, wanted: Table<Device>, g: Signal)
    requires Distinct(t) && Distinct(wanted)
    ensures g in SyncedAux(t, wanted) <==>
              || (exists e :: e in t && e.path !in PathSet(wanted) && g in RemovedAux(e.value))
              || (exists e :: e in wanted && g in DeviceAux(OldRecord(t, e.path), e.value))
  {
    var stale := Stale(t, Paths(wanted));
    PathsMembers(wanted);
    assert forall p :: p in Paths(wanted) <==> p in PathSet(wanted);
    StaleMembers(t, Paths(wanted));
    PruneFacts(Devices, t, Paths(wanted));
    var pruned := RemoveAll(Devices, t, stale).table;
    forall e | e in wanted ensures OldRecord(pruned, e.path) == OldRecord(t, e.path) {
      LookupExcept(t, PathSet(t) - PathSet(wanted), e.path);
    }
    RemovedDeviceSignals(t, stale, g);
    SyncedDeviceSignals(pruned, wanted, g);
    hide Stale, RemoveAll, Except, Distinct, DeviceAux, RemovedAux, OldRecord, DevicesAux, RemovedDevicesAux;
  }
}
