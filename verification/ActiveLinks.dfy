/** The active connections that a sync leaves, link by link: which links have one, and what it says. */
module ActiveLinks {
  import opened Text
  import opened ObjectPaths
  import opened Tables
  import opened RuntimeState
  import opened Backends
  import opened Sync
  import opened SyncConnectionFacts
  import opened SyncTheorems

  /** The link is a Wi-Fi link, and the network its station is connected to is the object of this known network. */
  predicate ConnectedTo(iwd: Iwd, link: Link, knownNetwork: string) {
    && link.linkType == Wlan
    && Lookup(iwd.devices, link.name).Some?
    && var station := Lookup(iwd.stations, Lookup(iwd.devices, link.name).value.value);
       && station.Some? && station.value.value.connectedNetwork.Some?
       && var network := Lookup(iwd.networks, station.value.value.connectedNetwork.value);
          network.Some? && network.value.value.knownNetwork == knownNetwork
  }

  /** The uuid of the connection that stands behind a link: on Wi-Fi that of the known network it is connected
      to, otherwise that of the link's name among the connections of its type, or among links without one. */
  ghost predicate StandsBehind(env: Env, iwd: Iwd, link: Link, uuid: string) {
    if link.linkType == Wlan
    then exists known :: ConnectedTo(iwd, link, known) && uuid == env.uuid("wifi", known)
    else if link.connectionType.Some? then uuid == env.uuid(link.connectionType.value, link.name)
    else uuid == env.uuid("link", link.name)
  }

  /** The link is active, is no loopback, and some connection of the table stands behind it. */
  ghost predicate IsShown(env: Env, iwd: Iwd, connections: Table<Connection>, link: Link) {
    && link.isActive && link.linkType != Loopback
    && exists e :: e in connections && StandsBehind(env, iwd, link, e.value.uuid)
  }

  /** The record says that this connection is up on this link. */
  predicate Describes(a: ActiveConnection, c: Entry<Connection>, link: Link) {
    && a.connection == c.path && a.uuid == c.value.uuid && a.connectionType == c.value.connectionType
    && a.devices == [DevicePath(link.name)] && a.isDefault
    && a.id == match TextSetting(c.value.settings, "connection", "id") case Some(id) => id case None => c.path
  }

  /** The first connection of the table with its uuid. */
  predicate IsFirstWithUuid(t: Table<Connection>, i: int) {
    0 <= i < |t| && forall j :: 0 <= j < i ==> t[j].value.uuid != t[i].value.uuid
  }

  lemma {:induction false} BehindByUuid(env: Env, iwd: Iwd, t: Table<Connection>, link: Link, uuid: string)
    requires StandsBehind(env, iwd, link, uuid)
    ensures ConnectionBehind(env, iwd, t, link) == LookupUuid(t, uuid)
  {
    hide LookupUuid;
  }

  lemma {:induction false} SomethingBehind(env: Env, iwd: Iwd, t: Table<Connection>, link: Link)
    requires ConnectionBehind(env, iwd, t, link).Some?
    ensures exists uuid :: StandsBehind(env, iwd, link, uuid)
  {
    hide LookupUuid;
    if link.linkType == Wlan {
      var path := StationOf(iwd, link.name).value.connectedNetwork.value;
      var known := Lookup(iwd.networks, path).value.value.knownNetwork;
      assert ConnectedTo(iwd, link, known) && StandsBehind(env, iwd, link, env.uuid("wifi", known));
    } else {
      var space := if link.connectionType.Some? then link.connectionType.value else "link";
      assert StandsBehind(env, iwd, link, env.uuid(space, link.name));
    }
  }

  /** The link's record is made of the first connection with the uuid that stands behind it. */
  lemma {:induction false} ShownIff(env: Env, iwd: Iwd, t: Table<Connection>, link: Link)
    ensures ShowsActive(env, iwd, t, link) <==> IsShown(env, iwd, t, link)
    ensures ShowsActive(env, iwd, t, link) ==>
              exists i :: IsFirstWithUuid(t, i) && StandsBehind(env, iwd, link, t[i].value.uuid)
                          && Describes(ActiveEntry(env, iwd, t, link).value, t[i], link)
  {
    if ConnectionBehind(env, iwd, t, link).Some? {
      SomethingBehind(env, iwd, t, link);
    }
    hide StandsBehind, ConnectionBehind;
    if uuid :| StandsBehind(env, iwd, link, uuid) {
      BehindByUuid(env, iwd, t, link, uuid);
      forall e | e in t && StandsBehind(env, iwd, link, e.value.uuid) ensures LookupUuid(t, uuid).Some? {
        BehindByUuid(env, iwd, t, link, e.value.uuid);
      }
      if LookupUuid(t, uuid).Some? {
        var i := UuidPosition(t, uuid);
        assert IsFirstWithUuid(t, i) && t[i] in t;
      }
    }
  }

  lemma {:induction false} WantedHasShown(env: Env, iwd: Iwd, t: Table<Connection>, links: seq<Link>, link: Link)
    requires link in links && ShowsActive(env, iwd, t, link)
    ensures ActiveEntry(env, iwd, t, link) in WantedActives(env, iwd, t, links)
  {
    hide ShowsActive, ActiveEntry;
    var front, last := links[..|links| - 1], links[|links| - 1];
    assert links == front + [last];
    if link != last {
      WantedHasShown(env, iwd, t, front, link);
    }
  }

  lemma {:induction false} OneLinkForAPath(links: seq<Link>, a: Link, b: Link)
    requires DistinctElements(links) && a in links && b in links && ActivePath(a.name) == ActivePath(b.name)
    ensures a == b
  {
    ActivePathInjective(a.name, b.name);
    var i :| 0 <= i < |links| && links[i] == a;
    var j :| 0 <= j < |links| && links[j] == b;
    assert !(i < j) && !(j < i);
  }

  /** The entry of a link in the list: there exactly when the link asks for it. */
  lemma {:induction false} WantedLookup(env: Env, iwd: Iwd, t: Table<Connection>, links: seq<Link>, link: Link)
    requires DistinctElements(links) && link in links
    ensures var found := Lookup(WantedActives(env, iwd, t, links), ActivePath(link.name));
            && (found.Some? <==> ShowsActive(env, iwd, t, link))
            && (found.Some? ==> found.value == ActiveEntry(env, iwd, t, link))
  {
    var wanted, path := WantedActives(env, iwd, t, links), ActivePath(link.name);
    WantedActivesMembers(env, iwd, t, links);
    WantedActivesDistinct(env, iwd, t, links);
    if ShowsActive(env, iwd, t, link) {
      WantedHasShown(env, iwd, t, links, link);
      assert ActiveEntry(env, iwd, t, link).path == path;
    }
    hide WantedActives, ActivePath, DistinctElements, Distinct, ActiveOf, ShowsActive;
    if path in PathSet(wanted) {
      var e := Lookup(wanted, path).value;
      var l :| l in links && ShowsActive(env, iwd, t, l) && e == ActiveEntry(env, iwd, t, l);
      OneLinkForAPath(links, l, link);
    }
  }

  /** After a sync, a link has an active connection exactly when it is active, is no loopback, and some
      connection stands behind it; the record then describes the first connection with that uuid. */
  lemma {:induction false} ActiveOfLink(env: Env, s: State, links: seq<Link>, iwd: Iwd, link: Link)
    requires Ready(s) && DistinctElements(links) && link in links
    ensures var t := AfterSync(env, s, links, iwd).state;
            var found := Lookup(t.activeConnections, ActivePath(link.name));
            && (found.Some? <==> IsShown(env, iwd, t.connections, link))
            && (found.Some? ==>
                  exists i :: IsFirstWithUuid(t.connections, i)
                              && StandsBehind(env, iwd, link, t.connections[i].value.uuid)
                              && Describes(found.value.value, t.connections[i], link))
  {
    var t := AfterSync(env, s, links, iwd).state;
    ActivesInLinkOrder(env, s, links, iwd);
    hide Ready, AfterSync, WantedActives, StandsBehind, Describes, ActiveEntry, DistinctElements, ActivePath;
    hide Lookup, ShowsActive;
    WantedLookup(env, iwd, t.connections, links, link);
    ShownIff(env, iwd, t.connections, link);
  }

  // ------------------------------------------------------- the connection was just stored

  lemma {:induction false} WiredIsWanted(env: Env, links: seq<Link>, link: Link)
    requires link in links && WantsConnection(link)
    ensures WantedWired(env, link) in WiredWishes(env, links)
  {
    hide WantedWired;
    var front, last := links[..|links| - 1], links[|links| - 1];
    assert links == front + [last];
    if link != last {
      WiredIsWanted(env, front, link);
    }
  }

  lemma {:induction false} WifiIsWanted(env: Env, interfaceName: string, networks: seq<KnownNetwork>,
                                        known: KnownNetwork)
    requires known in networks
    ensures WantedWifi(env, interfaceName, known) in WifiWishes(env, interfaceName, networks)
  {
    hide WantedWifi;
    var front, last := networks[..|networks| - 1], networks[|networks| - 1];
    assert networks == front + [last];
    if known != last {
      WifiIsWanted(env, interfaceName, front, known);
    }
  }

  lemma {:induction false} WantedIsThere(env: Env, s: State, links: seq<Link>, iwd: Iwd, w: Wanted)
    requires Ready(s) && w in Wishes(env, links, iwd)
    ensures var t := AfterSync(env, s, links, iwd).state.connections;
            exists e :: e in t && e.value.uuid == w.uuid
  {
    var ws := Wishes(env, links, iwd);
    var k :| 0 <= k < |ws| && ws[k] == w;
    assert Uuids(ws)[k] == w.uuid;
    WantedUuidsAreThere(s, ws, w.uuid);
  }

  /** After a sync every active link that is neither a loopback nor a Wi-Fi link, and whose type is that of
      a connection, has its active connection: with the uuid of the link's type and name, and of the first
      connection with this uuid, which the same sync has stored. */
  lemma {:induction false} WiredLinkIsShown(env: Env, s: State, links: seq<Link>, iwd: Iwd, link: Link, kind: string)
    requires Ready(s) && DistinctElements(links) && link in links
    requires link.isActive && link.linkType != Loopback && link.linkType != Wlan
    requires link.connectionType == Some(kind) && kind != "802-11-wireless"
    ensures var t := AfterSync(env, s, links, iwd).state;
            var found := Lookup(t.activeConnections, ActivePath(link.name));
            && found.Some? && found.value.value.uuid == env.uuid(kind, link.name)
            && exists i :: IsFirstWithUuid(t.connections, i) && Describes(found.value.value, t.connections[i], link)
  {
    WiredIsWanted(env, links, link);
    WantedIsThere(env, s, links, iwd, WantedWired(env, link));
    hide Ready, AfterSync, DistinctElements, ActivePath, Lookup;
    ActiveOfLink(env, s, links, iwd, link);
  }

  lemma {:induction false} UuidOfNetwork(env: Env, iwd: Iwd, link: Link, known: string)
    requires ConnectedTo(iwd, link, known)
    ensures forall uuid :: StandsBehind(env, iwd, link, uuid) <==> uuid == env.uuid("wifi", known)
  {
  }

  /** And so has every active Wi-Fi link that is connected to a network which iwd lists as known. */
  lemma {:induction false} WifiLinkIsShown(env: Env, s: State, links: seq<Link>, iwd: Iwd, link: Link,
                                           known: KnownNetwork)
    requires Ready(s) && DistinctElements(links) && link in links
    requires link.isActive && known in iwd.knownNetworks && ConnectedTo(iwd, link, known.path)
    ensures var t := AfterSync(env, s, links, iwd).state;
            var found := Lookup(t.activeConnections, ActivePath(link.name));
            && found.Some? && found.value.value.uuid == env.uuid("wifi", known.path)
            && exists i :: IsFirstWithUuid(t.connections, i) && Describes(found.value.value, t.connections[i], link)
  {
    WifiIsWanted(env, WirelessInterface(links), iwd.knownNetworks, known);
    WantedIsThere(env, s, links, iwd, WantedWifi(env, WirelessInterface(links), known));
    hide Ready, AfterSync, DistinctElements, ActivePath, Lookup, WirelessInterface, WantedWifi, Wishes;
    UuidOfNetwork(env, iwd, link, known.path);
    hide StandsBehind, ConnectedTo;
    ActiveOfLink(env, s, links, iwd, link);
  }

  // ------------------------------------------------------------------- the primary

  ghost predicate IsFirstShown(env: Env, iwd: Iwd, connections: Table<Connection>, links: seq<Link>, i: int) {
    && 0 <= i < |links| && IsShown(env, iwd, connections, links[i])
    && forall j :: 0 <= j < i ==> !IsShown(env, iwd, connections, links[j])
  }

  /** The list starts with a record of this link that describes the connection behind it. */
  ghost predicate IsHead(env: Env, iwd: Iwd, connections: Table<Connection>, actives: Table<ActiveConnection>,
                         link: Link) {
    && actives != [] && actives[0].path == ActivePath(link.name)
    && exists k :: IsFirstWithUuid(connections, k) && StandsBehind(env, iwd, link, connections[k].value.uuid)
                   && Describes(actives[0].value, connections[k], link)
  }

  lemma {:induction false} FirstIsHead(env: Env, iwd: Iwd, t: Table<Connection>, links: seq<Link>, i: nat)
    requires IsFirstShown(env, iwd, t, links, i)
    ensures IsHead(env, iwd, t, WantedActives(env, iwd, t, links), links[i])
  {
    hide StandsBehind, Describes, IsShown, ActivePath, ShowsActive, WantedActives, ActiveOf;
    forall j | 0 <= j <= i ensures ShowsActive(env, iwd, t, links[j]) <==> IsShown(env, iwd, t, links[j]) {
      ShownIff(env, iwd, t, links[j]);
    }
    FirstWantedActive(env, iwd, t, links, i);
    ShownIff(env, iwd, t, links[i]);
  }

  lemma {:induction false} EmptyIffNoneShows(env: Env, iwd: Iwd, t: Table<Connection>, links: seq<Link>)
    ensures WantedActives(env, iwd, t, links) == [] <==> forall l :: l in links ==> !ShowsActive(env, iwd, t, l)
  {
    hide ShowsActive, ActiveEntry;
    if links != [] {
      assert links == links[..|links| - 1] + [links[|links| - 1]];
      EmptyIffNoneShows(env, iwd, t, links[..|links| - 1]);
    }
  }

  /** The primary connection is that of the first active link, no loopback, with a connection behind it, and
      describes that connection; without such a link there is none. */
  lemma {:induction false} PrimaryOfLinks(env: Env, s: State, links: seq<Link>, iwd: Iwd)
    requires Ready(s) && DistinctElements(links)
    ensures var t := AfterSync(env, s, links, iwd).state;
            && (t.activeConnections == [] <==> forall l :: l in links ==> !IsShown(env, iwd, t.connections, l))
            && (forall i :: IsFirstShown(env, iwd, t.connections, links, i)
                  ==> IsHead(env, iwd, t.connections, t.activeConnections, links[i]))
  {
    var t := AfterSync(env, s, links, iwd).state;
    ActivesInLinkOrder(env, s, links, iwd);
    hide Ready, AfterSync, StandsBehind, Describes, DistinctElements, IsShown, ActivePath, ShowsActive, WantedActives;
    forall l | l in links ensures ShowsActive(env, iwd, t.connections, l) <==> IsShown(env, iwd, t.connections, l) {
      ShownIff(env, iwd, t.connections, l);
    }
    EmptyIffNoneShows(env, iwd, t.connections, links);
    forall i | IsFirstShown(env, iwd, t.connections, links, i)
      ensures IsHead(env, iwd, t.connections, t.activeConnections, links[i])
    {
      FirstIsHead(env, iwd, t.connections, links, i);
    }
  }

  /** No other link, and nothing else, has an active connection: every path of the list is that of a link
      that is shown, and the list is in link order. */
  lemma {:induction false} ActivesOfLinks(env: Env, s: State, links: seq<Link>, iwd: Iwd, i: nat, j: nat)
    requires Ready(s) && DistinctElements(links) && i < j < |links|
    ensures var t := AfterSync(env, s, links, iwd).state;
            && (forall e :: e in t.activeConnections ==>
                  exists l :: l in links && IsShown(env, iwd, t.connections, l) && e.path == ActivePath(l.name))
            && (IsShown(env, iwd, t.connections, links[i]) && IsShown(env, iwd, t.connections, links[j])
                ==> Position(t.activeConnections, ActivePath(links[i].name))
                    < Position(t.activeConnections, ActivePath(links[j].name)))
  {
    var t := AfterSync(env, s, links, iwd).state;
    ActivesInLinkOrder(env, s, links, iwd);
    WantedActivesMembers(env, iwd, t.connections, links);
    hide Ready, AfterSync, WantedActives, StandsBehind, DistinctElements, IsShown, ActiveOf;
    forall l | l in links ensures ShowsActive(env, iwd, t.connections, l) <==> IsShown(env, iwd, t.connections, l) {
      ShownIff(env, iwd, t.connections, l);
    }
    hide ShowsActive;
    if IsShown(env, iwd, t.connections, links[i]) && IsShown(env, iwd, t.connections, links[j]) {
      WantedInOrder(env, iwd, t.connections, links, i, j);
    }
  }

  lemma {:induction false} ShownIsListed(env: Env, iwd: Iwd, t: Table<Connection>, links: seq<Link>, i: nat)
    requires i < |links| && ShowsActive(env, iwd, t, links[i])
    ensures ActivePath(links[i].name) in PathSet(WantedActives(env, iwd, t, links))
  {
    WantedHasShown(env, iwd, t, links, links[i]);
    hide WantedActives, ActivePath, ActiveOf, ShowsActive;
    assert ActiveEntry(env, iwd, t, links[i]).path == ActivePath(links[i].name);
  }

  /** One more link moves no path that is there, and puts its own last. */
  lemma {:induction false} OneMoreLink(env: Env, iwd: Iwd, t: Table<Connection>, links: seq<Link>, path: string)
    requires DistinctElements(links) && links != []
    ensures var front, last := links[..|links| - 1], links[|links| - 1];
            var rest, wanted := WantedActives(env, iwd, t, front), WantedActives(env, iwd, t, links);
            && |rest| <= |wanted|
            && (path in PathSet(rest) ==> Position(wanted, path) == Position(rest, path) < |rest|)
            && (ShowsActive(env, iwd, t, last) ==> Position(wanted, ActivePath(last.name)) == |rest| < |wanted|)
  {
    var front, last := links[..|links| - 1], links[|links| - 1];
    var rest, wanted := WantedActives(env, iwd, t, front), WantedActives(env, iwd, t, links);
    WantedActivesDistinct(env, iwd, t, links);
    assert wanted == if ShowsActive(env, iwd, t, last) then rest + [ActiveEntry(env, iwd, t, last)] else rest;
    hide WantedActives, ActivePath, DistinctElements, ActiveOf, PathSet, ShowsActive;
    if ShowsActive(env, iwd, t, last) {
      var e := ActiveEntry(env, iwd, t, last);
      Snoc(rest, e);
      FirstPart(rest, e, path);
    }
  }

  lemma {:induction false} FrontIsDistinct(links: seq<Link>)
    requires DistinctElements(links) && links != []
    ensures DistinctElements(links[..|links| - 1])
  {
    hide Segment;
  }

  lemma {:induction false} WantedInOrder(env: Env, iwd: Iwd, t: Table<Connection>, links: seq<Link>, i: nat, j: nat)
    requires DistinctElements(links) && i < j < |links|
    requires ShowsActive(env, iwd, t, links[i]) && ShowsActive(env, iwd, t, links[j])
    ensures var wanted := WantedActives(env, iwd, t, links);
            Position(wanted, ActivePath(links[i].name)) < Position(wanted, ActivePath(links[j].name)) < |wanted|
    decreases |links|
  {
    hide WantedActives, ActivePath, DistinctElements, PathSet, ShowsActive, Position;
    var front := links[..|links| - 1];
    FrontIsDistinct(links);
    assert front[i] == links[i];
    ShownIsListed(env, iwd, t, front, i);
    OneMoreLink(env, iwd, t, links, ActivePath(links[i].name));
    if j < |front| {
      assert front[j] == links[j];
      WantedInOrder(env, iwd, t, front, i, j);
      ShownIsListed(env, iwd, t, front, j);
      OneMoreLink(env, iwd, t, links, ActivePath(links[j].name));
    }
  }
}
