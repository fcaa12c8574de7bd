/** The theorems about a completed sync: what it leaves in every table, what it announces,
    and that doing it again changes nothing. */
module SyncTheorems {
  import opened Text
  import opened ObjectPaths
  import opened Tables
  import opened RuntimeState
  import opened Backends
  import opened Sync
  import opened SyncConnectionFacts

  /** Paths are distinct in every table and the next settings path is fresh. */
  ghost predicate Ready(s: State) {
    && ConnectionsReady(s)
    && Distinct(s.accessPoints) && Distinct(s.devices) && Distinct(s.activeConnections)
    && Distinct(s.wirelessDevices)
  }

  ghost predicate DistinctNames(links: seq<Link>) {
    forall i, j :: 0 <= i < j < |links| ==> links[i].name != links[j].name
  }

  ghost predicate DistinctElements(links: seq<Link>) {
    forall i, j :: 0 <= i < j < |links| ==> Segment(links[i].name) != Segment(links[j].name)
  }

  // ------------------------------------------------------------- the four tables

  lemma {:induction false} PathsMembers<V>(t: Table<V>)
    ensures (set p | p in Paths(t)) == PathSet(t)
  {
    forall p | p in PathSet(t) ensures p in Paths(t) {
      var i := Position(t, p);
      assert Paths(t)[i] == p;
    }
    forall p | p in Paths(t) ensures p in PathSet(t) {
      var i :| 0 <= i < |Paths(t)| && Paths(t)[i] == p;
      assert t[i] in t;
    }
  }

  lemma {:induction false} SyncedAccessPointsFacts(t: Table<AccessPoint>, wanted: Table<AccessPoint>)
    requires Distinct(t)
    ensures var r := SyncedAccessPoints(t, wanted);
            && Distinct(r.table) && PathSet(r.table) == PathSet(wanted)
            && (forall p :: Latest(wanted, p).Some? ==> Lookup(r.table, p) == Latest(wanted, p))
            && Exact(Objects(AccessPoints, t), r.log, Objects(AccessPoints, r.table))
  {
    var u := UpsertAll(AccessPoints, t, wanted);
    UpsertAllShape(AccessPoints, t, wanted);
    UpsertAllExact(AccessPoints, t, wanted);
    PathsMembers(wanted);
    PruneFacts(AccessPoints, u.table, Paths(wanted));
    var pruned := RemoveAll(AccessPoints, u.table, Stale(u.table, Paths(wanted)));
    ExactThen(Objects(AccessPoints, t), u.log, Objects(AccessPoints, u.table), pruned.log,
              Objects(AccessPoints, pruned.table));
    forall p | Latest(wanted, p).Some? ensures Lookup(pruned.table, p) == Latest(wanted, p) {
      LatestMember(wanted, p);
      LookupExcept(u.table, PathSet(u.table) - PathSet(wanted), p);
    }
  }

  lemma {:induction false} LatestMember<V>(es: Table<V>, path: string)
    ensures Latest(es, path).Some? <==> path in PathSet(es)
  {
    if es != [] {
      Unsnoc(es);
      LatestMember(es[..|es| - 1], path);
    }
  }

  lemma {:induction false} LookupExcept<V>(t: Table<V>, dead: set<string>, path: string)
    requires Distinct(t) && path !in dead
    ensures Lookup(Except(t, dead), path) == Lookup(t, path)
  {
    ExceptMembers(t, dead);
    if path in PathSet(t) {
      var e := Lookup(Except(t, dead), path).value;
      var k :| 0 <= k < |t| && t[k] == e;
      DistinctLookup(t, k);
    }
  }

  lemma {:induction false} SyncedAccessPointsAgain(t: Table<AccessPoint>, wanted: Table<AccessPoint>)
    requires Distinct(t)
    ensures var once := SyncedAccessPoints(t, wanted).table;
            SyncedAccessPoints(once, wanted) == Outcome(once, [])
  {
    var once := SyncedAccessPoints(t, wanted).table;
    SyncedAccessPointsFacts(t, wanted);
    UpsertAllAgain(AccessPoints, once, wanted);
    PathsMembers(wanted);
    StaleNone(once, Paths(wanted));
  }

  lemma {:induction false} SyncedDevicesFacts(t: Table<Device>, wanted: Table<Device>)
    requires Distinct(t)
    ensures var r := SyncedDevices(t, wanted);
            && Distinct(r.table) && PathSet(r.table) == PathSet(wanted)
            && (forall p :: Latest(wanted, p).Some? ==> Lookup(r.table, p) == Latest(wanted, p))
            && Exact(Objects(Devices, t), r.log, Objects(Devices, r.table))
  {
    PathsMembers(wanted);
    PruneFacts(Devices, t, Paths(wanted));
    var pruned := RemoveAll(Devices, t, Stale(t, Paths(wanted)));
    UpsertAllShape(Devices, pruned.table, wanted);
    UpsertAllExact(Devices, pruned.table, wanted);
    var u := UpsertAll(Devices, pruned.table, wanted);
    ExactThen(Objects(Devices, t), pruned.log, Objects(Devices, pruned.table), u.log, Objects(Devices, u.table));
  }

  lemma {:induction false} SyncedDevicesAgain(t: Table<Device>, wanted: Table<Device>)
    requires Distinct(t)
    ensures var once := SyncedDevices(t, wanted).table;
            && SyncedDevices(once, wanted) == Outcome(once, [])
            && Stale(once, Paths(wanted)) == []
  {
    var once := SyncedDevices(t, wanted).table;
    SyncedDevicesFacts(t, wanted);
    PathsMembers(wanted);
    StaleNone(once, Paths(wanted));
    UpsertAllAgain(Devices, once, wanted);
  }

  lemma {:induction false} SyncedActivesFacts(t: Table<ActiveConnection>, wanted: Table<ActiveConnection>)
    requires Distinct(t)
    ensures var r := SyncedActives(t, wanted);
            && r.table == RepushAll(ActiveConnections, [], wanted).table
            && Distinct(r.table) && PathSet(r.table) == PathSet(wanted)
            && Exact(Objects(ActiveConnections, t), r.log, Objects(ActiveConnections, r.table))
  {
    PathsMembers(wanted);
    PruneFacts(ActiveConnections, t, Paths(wanted));
    var pruned := RemoveAll(ActiveConnections, t, Stale(t, Paths(wanted)));
    RepushAllPaths(ActiveConnections, pruned.table, wanted);
    RepushAllShape(ActiveConnections, pruned.table, wanted);
    ExceptAll(pruned.table, PathSet(wanted));
    RepushAllExact(ActiveConnections, pruned.table, wanted);
    var u := RepushAll(ActiveConnections, pruned.table, wanted);
    ExactThen(Objects(ActiveConnections, t), pruned.log, Objects(ActiveConnections, pruned.table), u.log,
              Objects(ActiveConnections, u.table));
  }

  lemma {:induction false} SyncedActivesAgain(t: Table<ActiveConnection>, wanted: Table<ActiveConnection>)
    requires Distinct(t)
    ensures var once := SyncedActives(t, wanted).table;
            SyncedActives(once, wanted) == Outcome(once, [])
  {
    var once := SyncedActives(t, wanted).table;
    SyncedActivesFacts(t, wanted);
    PathsMembers(wanted);
    StaleNone(once, Paths(wanted));
    RepushAllAgain(ActiveConnections, wanted);
  }

  // ----------------------------------------------------------- wireless records

  /** What a link's interface should have among the wireless records. */
  ghost predicate Settled(env: Env, iwd: Iwd, w: Table<WirelessDevice>, link: Link) {
    match link.linkType
    case Wlan => Lookup(w, link.name) == Some(WirelessEntry(env, iwd, link))
    case Ether => true
    case Loopback => true
    case _ => link.name !in PathSet(w)
  }

  /** No record that the walk over the devices would drop is there. */
  ghost predicate Dropped(w: Table<WirelessDevice>, link: Link) {
    link.linkType == Wlan || link.linkType == Ether || link.linkType == Loopback || link.name !in PathSet(w)
  }

  lemma {:induction false} DistinctNamesFront(links: seq<Link>)
    requires links != [] && DistinctNames(links)
    ensures DistinctNames(links[..|links| - 1])
    ensures forall l :: l in links[..|links| - 1] ==> l.name != links[|links| - 1].name
  {
  }

  lemma {:induction false} DropWirelessDistinct(w: Table<WirelessDevice>, devices: Table<Device>, stale: seq<string>)
    requires Distinct(w)
    ensures Distinct(DropWireless(w, devices, stale))
  {
    if stale != [] {
      DropWirelessDistinct(w, devices, stale[..|stale| - 1]);
      var d := Lookup(devices, stale[|stale| - 1]);
      if d.Some? {
        WithoutFacts(DropWireless(w, devices, stale[..|stale| - 1]), d.value.value.interfaceName);
      }
    }
  }

  lemma {:induction false} WirelessOfDevicesDrops(env: Env, iwd: Iwd, w: Table<WirelessDevice>, links: seq<Link>)
    requires Distinct(w) && DistinctNames(links)
    ensures var r := WirelessOfDevices(env, iwd, w, links);
            Distinct(r) && forall l :: l in links ==> Dropped(r, l)
  {
    if links != [] {
      var front, last := links[..|links| - 1], links[|links| - 1];
      DistinctNamesFront(links);
      WirelessOfDevicesDrops(env, iwd, w, front);
      var before := WirelessOfDevices(env, iwd, w, front);
      UpsertFacts(before, WirelessEntry(env, iwd, last));
      WithoutFacts(before, last.name);
      assert links == front + [last];
    }
  }

  lemma {:induction false} RefreshSettles(env: Env, iwd: Iwd, w: Table<WirelessDevice>, links: seq<Link>)
    requires Distinct(w) && DistinctNames(links)
    ensures var r := RefreshWireless(env, iwd, w, links);
            && Distinct(r)
            && (forall l :: l in links && l.linkType == Wlan ==> Lookup(r, l.name) == Some(WirelessEntry(env, iwd, l)))
            && (forall p :: p in PathSet(r)
                 ==> p in PathSet(w) || exists l :: l in links && l.linkType == Wlan && l.name == p)
  {
    if links != [] {
      var front, last := links[..|links| - 1], links[|links| - 1];
      DistinctNamesFront(links);
      RefreshSettles(env, iwd, w, front);
      UpsertFacts(RefreshWireless(env, iwd, w, front), WirelessEntry(env, iwd, last));
      assert WirelessEntry(env, iwd, last).path == last.name;
      assert links == front + [last];
      hide WirelessEntry, Upsert, Distinct, PathSet, Lookup;
    }
  }

  lemma {:induction false} SyncedWirelessSettled(env: Env, iwd: Iwd, w: Table<WirelessDevice>, devices: Table<Device>,
                                                 links: seq<Link>)
    requires Distinct(w) && DistinctNames(links)
    ensures var r := SyncedWireless(env, iwd, w, devices, links);
            Distinct(r) && forall l :: l in links ==> Settled(env, iwd, r, l)
  {
    var stale := Stale(devices, Paths(WantedDevices(env, iwd, links)));
    DropWirelessDistinct(w, devices, stale);
    var dropped := DropWireless(w, devices, stale);
    WirelessOfDevicesDrops(env, iwd, dropped, links);
    var walked := WirelessOfDevices(env, iwd, dropped, links);
    RefreshSettles(env, iwd, walked, links);
    var r := RefreshWireless(env, iwd, walked, links);
    forall l | l in links ensures Settled(env, iwd, r, l) {
      assert Dropped(walked, l);
      forall k | k in links && k.linkType == Wlan ensures k.name == l.name ==> k == l {
        if k.name == l.name {
          SameNameSameLink(links, k, l);
        }
      }
    }
  }

  lemma {:induction false} SameNameSameLink(links: seq<Link>, k: Link, l: Link)
    requires DistinctNames(links) && k in links && l in links && k.name == l.name
    ensures k == l
  {
    var i :| 0 <= i < |links| && links[i] == k;
    var j :| 0 <= j < |links| && links[j] == l;
    assert !(i < j) && !(j < i);
  }

  lemma {:induction false} UpsertSame<V>(t: Table<V>, e: Entry<V>)
    requires Lookup(t, e.path) == Some(e)
    ensures Upsert(t, e) == t
  {
  }

  lemma {:induction false} SettledStays(env: Env, iwd: Iwd, w: Table<WirelessDevice>, links: seq<Link>)
    requires forall l :: l in links ==> Settled(env, iwd, w, l)
    ensures WirelessOfDevices(env, iwd, w, links) == w && RefreshWireless(env, iwd, w, links) == w
  {
    if links != [] {
      var front, last := links[..|links| - 1], links[|links| - 1];
      assert links == front + [last];
      assert last in links && forall l :: l in front ==> l in links;
      SettledStays(env, iwd, w, front);
      assert Settled(env, iwd, w, last);
      if last.linkType == Wlan {
        UpsertSame(w, WirelessEntry(env, iwd, last));
      }
    }
  }

  // ---------------------------------------------------------------- main theorems

  /** A sync keeps the tables in shape. */
  lemma {:induction false} SyncKeepsReady(env: Env, s: State, links: seq<Link>, iwd: Iwd)
    requires Ready(s) && DistinctNames(links)
    ensures Ready(AfterSync(env, s, links, iwd).state)
  {
    SyncedConnectionsTable(s, Wishes(env, links, iwd));
    SyncedAccessPointsFacts(s.accessPoints, WantedAccessPoints(env, iwd, iwd.stations));
    SyncedDevicesFacts(s.devices, WantedDevices(env, iwd, links));
    SyncedActivesFacts(s.activeConnections,
                       WantedActives(env, iwd, AfterSync(env, s, links, iwd).state.connections, links));
    SyncedWirelessSettled(env, iwd, s.wirelessDevices, s.devices, links);
  }

  /** Idempotence: a second sync against the same backends leaves every table, the next
      settings id and everything else as they are, and announces nothing. Only the version moves. */
  lemma {:induction false} SyncTwice(env: Env, s: State, links: seq<Link>, iwd: Iwd)
    requires Ready(s) && DistinctNames(links)
    ensures var once := AfterSync(env, s, links, iwd).state;
            var twice := AfterSync(env, once, links, iwd);
            twice.log == [] && twice.state == once.(versionId := twice.state.versionId)
  {
    var ws := Wishes(env, links, iwd);
    var once := AfterSync(env, s, links, iwd).state;
    var twice := AfterSync(env, once, links, iwd);
    ConnectionsIgnoreTheRest(s, once, ws);
    SyncedConnectionsAgain(s, ws);
    SyncedAccessPointsAgain(s.accessPoints, WantedAccessPoints(env, iwd, iwd.stations));
    SyncedDevicesAgain(s.devices, WantedDevices(env, iwd, links));
    SyncedActivesAgain(s.activeConnections, WantedActives(env, iwd, once.connections, links));
    SyncedWirelessSettled(env, iwd, s.wirelessDevices, s.devices, links);
    SettledStays(env, iwd, once.wirelessDevices, links);
    SyncedConnectionsFrame(once, ws);
  }

  /** The connection phase depends on the connection table and the next id alone. */
  lemma {:induction false} ConnectionsIgnoreTheRest(s: State, once: State, ws: seq<Wanted>)
    requires var c := SyncedConnections(s, ws).state;
             once.connections == c.connections && once.nextSettingsId == c.nextSettingsId
    ensures var a, b := SyncedConnections(SyncedConnections(s, ws).state, ws), SyncedConnections(once, ws);
            && a.state.connections == b.state.connections && a.state.nextSettingsId == b.state.nextSettingsId
            && a.log == b.log
  {
    var c := SyncedConnections(s, ws).state;
    UpsertDependsOnTable(c, once, ws);
    var x, y := UpsertWishes(c, ws), UpsertWishes(once, ws);
    RemoveConnectionsIsRemoveAll(x, StaleBackends(x.state.connections, Uuids(ws)));
    RemoveConnectionsIsRemoveAll(y, StaleBackends(y.state.connections, Uuids(ws)));
    RemoveConnectionsFrame(x, StaleBackends(x.state.connections, Uuids(ws)));
    RemoveConnectionsFrame(y, StaleBackends(y.state.connections, Uuids(ws)));
  }

  lemma {:induction false} UpsertDependsOnTable(a: State, b: State, ws: seq<Wanted>)
    requires a.connections == b.connections && a.nextSettingsId == b.nextSettingsId
    ensures var x, y := UpsertWishes(a, ws), UpsertWishes(b, ws);
            && x.state.connections == y.state.connections && x.state.nextSettingsId == y.state.nextSettingsId
            && x.log == y.log
  {
    if ws != [] {
      UpsertDependsOnTable(a, b, ws[..|ws| - 1]);
    }
  }

  /** The objects of the four tables. */
  ghost function View(s: State): set<Object> {
    Objects(Connections, s.connections) + Objects(AccessPoints, s.accessPoints)
    + Objects(Devices, s.devices) + Objects(ActiveConnections, s.activeConnections)
  }

  /** The signals of one sync are exactly the objects that came and the objects that went,
      each once; so a client that replays them over the old objects holds the new ones. */
  lemma {:induction false} SyncAnnouncesTheDifference(env: Env, s: State, links: seq<Link>, iwd: Iwd)
    requires Ready(s)
    ensures var y := AfterSync(env, s, links, iwd);
            Exact(View(s), y.log, View(y.state)) && Replay(View(s), y.log) == View(y.state)
  {
    var y := AfterSync(env, s, links, iwd);
    var t := y.state;
    var c := SyncedConnections(s, Wishes(env, links, iwd));
    var a := SyncedAccessPoints(s.accessPoints, WantedAccessPoints(env, iwd, iwd.stations));
    var d := SyncedDevices(s.devices, WantedDevices(env, iwd, links));
    var p := SyncedActives(s.activeConnections, WantedActives(env, iwd, c.state.connections, links));
    SyncedConnectionsExact(s, Wishes(env, links, iwd));
    SyncedAccessPointsFacts(s.accessPoints, WantedAccessPoints(env, iwd, iwd.stations));
    SyncedDevicesFacts(s.devices, WantedDevices(env, iwd, links));
    SyncedActivesFacts(s.activeConnections, WantedActives(env, iwd, c.state.connections, links));
    FourTables(
      Objects(Connections, s.connections), c.log, Objects(Connections, t.connections),
      Objects(AccessPoints, s.accessPoints), a.log, Objects(AccessPoints, t.accessPoints),
      Objects(Devices, s.devices), d.log, Objects(Devices, t.devices),
      Objects(ActiveConnections, s.activeConnections), p.log, Objects(ActiveConnections, t.activeConnections));
    ExactReplay(View(s), y.log, View(t));
  }

  ghost predicate OfKind(os: set<Object>, kind: Kind) {
    forall o :: o in os ==> o.kind == kind
  }

  /** Exact logs about objects of four different kinds, one after the other, are exact. */
  lemma {:induction false} FourTables(c0: set<Object>, cl: seq<Signal>, c1: set<Object>,
                   a0: set<Object>, al: seq<Signal>, a1: set<Object>,
                   d0: set<Object>, dl: seq<Signal>, d1: set<Object>,
                   p0: set<Object>, pl: seq<Signal>, p1: set<Object>)
    requires Exact(c0, cl, c1) && OfKind(c0 + c1, Connections)
    requires Exact(a0, al, a1) && OfKind(a0 + a1, AccessPoints)
    requires Exact(d0, dl, d1) && OfKind(d0 + d1, Devices)
    requires Exact(p0, pl, p1) && OfKind(p0 + p1, ActiveConnections)
    ensures Exact(c0 + a0 + d0 + p0, cl + al + dl + pl, c1 + a1 + d1 + p1)
  {
    JoinExact(c0, cl, c1, a0, al, a1);
    JoinExact(c0 + a0, cl + al, c1 + a1, d0, dl, d1);
    JoinExact(c0 + a0 + d0, cl + al + dl, c1 + a1 + d1, p0, pl, p1);
  }

  lemma {:induction false} JoinExact(a0: set<Object>, al: seq<Signal>, a1: set<Object>, b0: set<Object>,
                                     bl: seq<Signal>, b1: set<Object>)
    requires Exact(a0, al, a1) && Exact(b0, bl, b1) && (a0 + a1) !! (b0 + b1)
    ensures Exact(a0 + b0, al + bl, a1 + b1)
  {
    ExactWiden(a0, al, a1, b0);
    ExactWiden(b0, bl, b1, a1);
    assert a1 + b0 == b0 + a1 && a1 + b1 == b1 + a1;
    forall o | Mentions(al, o) ensures !Mentions(bl, o) {
      assert o in a0 + a1;
    }
    ExactThen(a0 + b0, al, a1 + b0, bl, a1 + b1);
  }

  // ------------------------------------------------------- the active connections

  lemma {:induction false} WantedActivesMembers(env: Env, iwd: Iwd, connections: Table<Connection>, links: seq<Link>)
    ensures forall e :: e in WantedActives(env, iwd, connections, links) ==>
              exists l :: l in links && ShowsActive(env, iwd, connections, l)
                          && e == ActiveEntry(env, iwd, connections, l)
  {
    if links != [] {
      var front, last := links[..|links| - 1], links[|links| - 1];
      assert links == front + [last] && last in links;
      WantedActivesMembers(env, iwd, connections, front);
      forall e | e in WantedActives(env, iwd, connections, links)
        ensures exists l :: l in links && ShowsActive(env, iwd, connections, l)
                            && e == ActiveEntry(env, iwd, connections, l)
      {
        if e in WantedActives(env, iwd, connections, front) {
          var l :| l in front && ShowsActive(env, iwd, connections, l) && e == ActiveEntry(env, iwd, connections, l);
          assert l in links;
        }
      }
    }
  }

  lemma {:induction false} ActivePathInjective(a: string, b: string)
    requires ActivePath(a) == ActivePath(b)
    ensures Segment(a) == Segment(b)
  {
    SegmentIsElement(a);
    SegmentIsElement(b);
    LastSegmentAfterSlash(ACTIVE_CONNECTIONS, Segment(a));
    LastSegmentAfterSlash(ACTIVE_CONNECTIONS, Segment(b));
  }

  lemma {:induction false} WantedActivesDistinct(env: Env, iwd: Iwd, connections: Table<Connection>, links: seq<Link>)
    requires DistinctElements(links)
    ensures Distinct(WantedActives(env, iwd, connections, links))
  {
    if links != [] {
      var front, last := links[..|links| - 1], links[|links| - 1];
      WantedActivesDistinct(env, iwd, connections, front);
      WantedActivesMembers(env, iwd, connections, front);
      var rest := WantedActives(env, iwd, connections, front);
      if ShowsActive(env, iwd, connections, last) {
        forall e | e in rest ensures e.path != ActivePath(last.name) {
          var l :| l in front && ShowsActive(env, iwd, connections, l) && e == ActiveEntry(env, iwd, connections, l);
          var i :| 0 <= i < |front| && front[i] == l;
          assert Segment(links[i].name) != Segment(links[|links| - 1].name);
          if ActivePath(l.name) == ActivePath(last.name) {
            ActivePathInjective(l.name, last.name);
          }
        }
        Snoc(rest, ActiveEntry(env, iwd, connections, last));
      }
    }
  }

  /** After a sync the active list is exactly what the links ask for, in link order. */
  lemma {:induction false} ActivesInLinkOrder(env: Env, s: State, links: seq<Link>, iwd: Iwd)
    requires Ready(s) && DistinctElements(links)
    ensures var t := AfterSync(env, s, links, iwd).state;
            t.activeConnections == WantedActives(env, iwd, t.connections, links)
  {
    var t := AfterSync(env, s, links, iwd).state;
    var wanted := WantedActives(env, iwd, t.connections, links);
    SyncedActivesFacts(s.activeConnections, wanted);
    WantedActivesDistinct(env, iwd, t.connections, links);
    RepushAllInOrder(ActiveConnections, wanted);
  }

  /** The first link that shows an active connection, if there is one. */
  ghost predicate IsPrimary(env: Env, iwd: Iwd, connections: Table<Connection>, links: seq<Link>, i: nat) {
    && i < |links| && ShowsActive(env, iwd, connections, links[i])
    && forall j :: 0 <= j < i ==> !ShowsActive(env, iwd, connections, links[j])
  }

  lemma {:induction false} FirstWantedActive(env: Env, iwd: Iwd, connections: Table<Connection>, links: seq<Link>,
                                             i: nat)
    requires IsPrimary(env, iwd, connections, links, i)
    ensures var w := WantedActives(env, iwd, connections, links);
            w != [] && w[0] == ActiveEntry(env, iwd, connections, links[i])
  {
    var front := links[..|links| - 1];
    if i < |front| {
      assert forall j :: 0 <= j <= i ==> front[j] == links[j];
      FirstWantedActive(env, iwd, connections, front, i);
    } else {
      NoneWanted(env, iwd, connections, front);
    }
  }

  lemma {:induction false} NoneWanted(env: Env, iwd: Iwd, connections: Table<Connection>, links: seq<Link>)
    requires forall j :: 0 <= j < |links| ==> !ShowsActive(env, iwd, connections, links[j])
    ensures WantedActives(env, iwd, connections, links) == []
  {
    if links != [] {
      NoneWanted(env, iwd, connections, links[..|links| - 1]);
    }
  }

  /** The primary connection, the head of the list, belongs to the first active link that is
      not a loopback and has a connection record; without such a link the list is empty. */
  lemma {:induction false} PrimaryIsFirstShown(env: Env, s: State, links: seq<Link>, iwd: Iwd, i: nat)
    requires Ready(s) && DistinctElements(links)
    ensures var t := AfterSync(env, s, links, iwd).state;
            && (IsPrimary(env, iwd, t.connections, links, i)
                ==> t.activeConnections != []
                    && t.activeConnections[0] == ActiveEntry(env, iwd, t.connections, links[i]))
            && ((forall j :: 0 <= j < |links| ==> !ShowsActive(env, iwd, t.connections, links[j]))
                ==> t.activeConnections == [])
  {
    var t := AfterSync(env, s, links, iwd).state;
    ActivesInLinkOrder(env, s, links, iwd);
    if IsPrimary(env, iwd, t.connections, links, i) {
      FirstWantedActive(env, iwd, t.connections, links, i);
    }
    if forall j :: 0 <= j < |links| ==> !ShowsActive(env, iwd, t.connections, links[j]) {
      NoneWanted(env, iwd, t.connections, links);
    }
  }

  lemma {:induction false} DeviceOfLinkIsLive(env: Env, s: State, links: seq<Link>, iwd: Iwd, l: Link)
    requires Ready(s) && l in links
    ensures DevicePath(l.name) in PathSet(AfterSync(env, s, links, iwd).state.devices)
  {
    var wanted := WantedDevices(env, iwd, links);
    SyncedDevicesFacts(s.devices, wanted);
    var i :| 0 <= i < |links| && links[i] == l;
    assert wanted[i] == DeviceEntry(env, iwd, l) && wanted[i] in wanted;
  }

  /** Every active record points at a live connection and at live devices. */
  lemma {:induction false} ActivesAreLive(env: Env, s: State, links: seq<Link>, iwd: Iwd, e: Entry<ActiveConnection>)
    requires Ready(s) && DistinctElements(links)
    requires e in AfterSync(env, s, links, iwd).state.activeConnections
    ensures var t := AfterSync(env, s, links, iwd).state;
            && e.value.connection in PathSet(t.connections)
            && (forall d :: d in e.value.devices ==> d in PathSet(t.devices))
  {
    var t := AfterSync(env, s, links, iwd).state;
    var connections := t.connections;
    ActivesInLinkOrder(env, s, links, iwd);
    WantedActivesMembers(env, iwd, connections, links);
    var l :| l in links && ShowsActive(env, iwd, connections, l) && e == ActiveEntry(env, iwd, connections, l);
    DeviceOfLinkIsLive(env, s, links, iwd, l);
    BehindIsLive(env, iwd, connections, l);
  }

  lemma {:induction false} BehindIsLive(env: Env, iwd: Iwd, connections: Table<Connection>, l: Link)
    requires ConnectionBehind(env, iwd, connections, l).Some?
    ensures ConnectionBehind(env, iwd, connections, l).value.path in PathSet(connections)
  {
    assert ConnectionBehind(env, iwd, connections, l).value in connections;
  }
}
