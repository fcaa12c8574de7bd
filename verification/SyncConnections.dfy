/** What a sync does to the connection table: which records it keeps, changes and adds. */
module SyncConnectionFacts {
  import opened Text
  import opened ObjectPaths
  import opened Tables
  import opened RuntimeState
  import opened Backends
  import opened Sync

  /** No path that is still to be issued occurs in the set. */
  ghost predicate IssuedBelow(paths: set<string>, next: nat) {
    forall id: nat :: id >= next ==> SettingsPath(id) !in paths
  }

  /** The last wish for a uuid. */
  function LastWish(ws: seq<Wanted>, uuid: string): (r: Option<Wanted>)
    ensures r.Some? <==> uuid in Uuids(ws)
    ensures r.Some? ==> r.value.uuid == uuid
  {
    if ws == [] then None
    else
      assert ws == ws[..|ws| - 1] + [ws[|ws| - 1]];
      assert Uuids(ws) == Uuids(ws[..|ws| - 1]) + [ws[|ws| - 1].uuid];
      if ws[|ws| - 1].uuid == uuid then Some(ws[|ws| - 1]) else LastWish(ws[..|ws| - 1], uuid)
  }

  lemma {:induction false} SameUuidsSamePosition(s: Table<Connection>, t: Table<Connection>, uuid: string)
    requires |s| <= |t| && forall i :: 0 <= i < |s| ==> s[i].value.uuid == t[i].value.uuid
    requires UuidPosition(s, uuid) < |s| || |s| == |t|
    ensures UuidPosition(s, uuid) == UuidPosition(t, uuid)
  {
    var i, j := UuidPosition(s, uuid), UuidPosition(t, uuid);
    assert i < |s| ==> t[i].value.uuid == uuid;
    assert j < |s| ==> s[j].value.uuid == uuid;
  }

  /** Old records keep their places, paths and uuids, and change only where a wish found them;
      new records are wanted and were not there. */
  ghost predicate Grown(t: Table<Connection>, ws: seq<Wanted>, u: Table<Connection>) {
    && |t| <= |u|
    && (forall i :: 0 <= i < |t| ==> u[i].path == t[i].path && u[i].value.uuid == t[i].value.uuid)
    && (forall i :: 0 <= i < |t| && (t[i].value.uuid !in Uuids(ws) || UuidPosition(t, t[i].value.uuid) != i)
          ==> u[i] == t[i])
    && (forall i :: |t| <= i < |u| ==> u[i].value.uuid in Uuids(ws) && LookupUuid(t, u[i].value.uuid).None?)
  }

  ghost predicate Granted(u: Table<Connection>, ws: seq<Wanted>, uuid: string)
    requires uuid in Uuids(ws)
  {
    LookupUuid(u, uuid).Some? && LookupUuid(u, uuid).value.value == Realized(LastWish(ws, uuid).value)
  }

  ghost predicate AllGranted(u: Table<Connection>, ws: seq<Wanted>) {
    forall uuid :: uuid in Uuids(ws) ==> Granted(u, ws, uuid)
  }

  lemma {:induction false} UuidsSnoc(ws: seq<Wanted>)
    requires ws != []
    ensures forall uuid :: uuid in Uuids(ws) <==> uuid in Uuids(ws[..|ws| - 1]) || uuid == ws[|ws| - 1].uuid
  {
    assert Uuids(ws) == Uuids(ws[..|ws| - 1]) + [ws[|ws| - 1].uuid];
  }

  lemma {:induction false} GrownUpdate(t: Table<Connection>, ws: seq<Wanted>, u: Table<Connection>, i: nat)
    requires ws != [] && Grown(t, ws[..|ws| - 1], u)
    requires i == UuidPosition(u, ws[|ws| - 1].uuid) < |u|
    ensures Grown(t, ws, u[i := Entry(u[i].path, Realized(ws[|ws| - 1]))])
  {
    var w := ws[|ws| - 1];
    var v := u[i := Entry(u[i].path, Realized(w))];
    UuidsSnoc(ws);
    forall k | 0 <= k < |t| && (t[k].value.uuid !in Uuids(ws) || UuidPosition(t, t[k].value.uuid) != k)
      ensures v[k] == t[k]
    {
      if t[k].value.uuid == w.uuid {
        SameUuidsSamePosition(t, u, w.uuid);
      }
    }
  }

  lemma {:induction false} GrantedUpdate(ws: seq<Wanted>, u: Table<Connection>, i: nat)
    requires ws != [] && AllGranted(u, ws[..|ws| - 1])
    requires i == UuidPosition(u, ws[|ws| - 1].uuid) < |u|
    ensures AllGranted(u[i := Entry(u[i].path, Realized(ws[|ws| - 1]))], ws)
  {
    var front, w := ws[..|ws| - 1], ws[|ws| - 1];
    var v := u[i := Entry(u[i].path, Realized(w))];
    UuidsSnoc(ws);
    forall uuid | uuid in Uuids(ws) ensures Granted(v, ws, uuid) {
      SameUuidsSamePosition(u, v, uuid);
      if uuid != w.uuid {
        assert Granted(u, front, uuid);
      }
    }
  }

  lemma {:induction false} GrownAdd(t: Table<Connection>, ws: seq<Wanted>, u: Table<Connection>, path: string)
    requires ws != [] && Grown(t, ws[..|ws| - 1], u)
    requires LookupUuid(u, ws[|ws| - 1].uuid).None?
    ensures Grown(t, ws, u + [Entry(path, Realized(ws[|ws| - 1]))])
  {
    UuidsSnoc(ws);
    forall k | 0 <= k < |t| ensures t[k].value.uuid != ws[|ws| - 1].uuid {
      assert u[k] in u;
    }
  }

  lemma {:induction false} GrantedAdd(ws: seq<Wanted>, u: Table<Connection>, path: string)
    requires ws != [] && AllGranted(u, ws[..|ws| - 1])
    requires LookupUuid(u, ws[|ws| - 1].uuid).None?
    ensures AllGranted(u + [Entry(path, Realized(ws[|ws| - 1]))], ws)
  {
    var front, w := ws[..|ws| - 1], ws[|ws| - 1];
    var v := u + [Entry(path, Realized(w))];
    UuidsSnoc(ws);
    assert forall k :: 0 <= k < |u| ==> v[k] == u[k] && u[k].value.uuid != w.uuid;
    forall uuid | uuid in Uuids(ws) ensures Granted(v, ws, uuid) {
      if uuid == w.uuid {
        assert v[|u|].value.uuid == uuid && UuidPosition(v, uuid) == |u|;
      } else {
        assert Granted(u, front, uuid);
        SameUuidsSamePosition(u, v, uuid);
      }
    }
  }

  lemma {:induction false} UpsertWishesGrant(s: State, ws: seq<Wanted>)
    requires Distinct(s.connections) && IssuedBelow(PathSet(s.connections), s.nextSettingsId)
    ensures AllGranted(UpsertWishes(s, ws).state.connections, ws)
  {
    if ws != [] {
      var w, y := ws[|ws| - 1], UpsertWishes(s, ws[..|ws| - 1]);
      UpsertWishesGrant(s, ws[..|ws| - 1]);
      UpsertWishesGrows(s, ws[..|ws| - 1]);
      var u := y.state.connections;
      var i := UuidPosition(u, w.uuid);
      if i < |u| {
        DistinctLookup(u, i);
        GrantedUpdate(ws, u, i);
      } else {
        GrantedAdd(ws, u, SettingsPath(y.state.nextSettingsId));
      }
    }
  }

  lemma {:induction false} UpsertWishesGrows(s: State, ws: seq<Wanted>)
    requires Distinct(s.connections) && IssuedBelow(PathSet(s.connections), s.nextSettingsId)
    ensures var y := UpsertWishes(s, ws);
            && Distinct(y.state.connections)
            && IssuedBelow(PathSet(y.state.connections), y.state.nextSettingsId)
            && Grown(s.connections, ws, y.state.connections)
            && y.state.nextSettingsId == s.nextSettingsId + |y.state.connections| - |s.connections|
            && |y.log| == |y.state.connections| - |s.connections|
            && Exact(Objects(Connections, s.connections), y.log, Objects(Connections, y.state.connections))
  {
    if ws != [] {
      var w, y := ws[|ws| - 1], UpsertWishes(s, ws[..|ws| - 1]);
      UpsertWishesGrows(s, ws[..|ws| - 1]);
      var u := y.state.connections;
      var i := UuidPosition(u, w.uuid);
      if i < |u| {
        DistinctLookup(u, i);
        GrownUpdate(s.connections, ws, u, i);
        assert UpsertWanted(y, w).state.connections == Upsert(u, Entry(u[i].path, Realized(w)));
        UpsertFacts(u, Entry(u[i].path, Realized(w)));
        assert u[i] in u;
        NoteAdded(Connections, s.connections, y.log, u, u[i].path, UpsertWanted(y, w).state.connections)
          by { GrownPaths(s.connections, ws[..|ws| - 1], u); }
      } else {
        var path := SettingsPath(y.state.nextSettingsId);
        GrownAdd(s.connections, ws, u, path);
        AppendFresh(u, y.state.nextSettingsId, Realized(w));
        NoteAdded(Connections, s.connections, y.log, u, path, u + [Entry(path, Realized(w))])
          by { GrownPaths(s.connections, ws[..|ws| - 1], u); }
      }
    }
  }

  lemma {:induction false} GrownPaths(t: Table<Connection>, ws: seq<Wanted>, u: Table<Connection>)
    requires Grown(t, ws, u)
    ensures PathSet(t) <= PathSet(u)
  {
    forall p | p in PathSet(t) ensures p in PathSet(u) {
      var i := Position(t, p);
      assert u[i] in u && u[i].path == p;
    }
  }

  /** Adding a record under the next path keeps paths distinct and the next path fresh. */
  lemma {:induction false} AppendFresh(t: Table<Connection>, next: nat, value: Connection)
    requires Distinct(t) && IssuedBelow(PathSet(t), next)
    ensures var u := t + [Entry(SettingsPath(next), value)];
            && Distinct(u) && PathSet(u) == PathSet(t) + {SettingsPath(next)}
            && IssuedBelow(PathSet(u), next + 1)
  {
    Snoc(t, Entry(SettingsPath(next), value));
    forall id: nat | id >= next + 1 ensures SettingsPath(id) != SettingsPath(next) {
      if SettingsPath(id) == SettingsPath(next) {
        SettingsPathInjective(id, next);
      }
    }
  }

  // -------------------------------------------------------------- stale records

  lemma {:induction false} RemoveConnectionsIsRemoveAll(y: Synced, paths: seq<string>)
    ensures var r, o := RemoveConnections(y, paths), RemoveAll(Connections, y.state.connections, paths);
            r.state.connections == o.table && r.log == y.log + o.log
  {
    if paths == [] {
      assert y.log + [] == y.log;
    } else {
      RemoveConnectionsIsRemoveAll(y, paths[..|paths| - 1]);
    }
  }

  lemma {:induction false} StaleBackendsMembers(t: Table<Connection>, uuids: seq<string>)
    requires Distinct(t)
    ensures forall e :: e in t ==> (e.path in StaleBackends(t, uuids) <==> IsStaleBackend(e.value, uuids))
    ensures forall p :: p in StaleBackends(t, uuids) ==> p in PathSet(t)
    ensures NoRepeats(StaleBackends(t, uuids))
  {
    if t != [] {
      Unsnoc(t);
      StaleBackendsMembers(t[..|t| - 1], uuids);
    }
  }

  lemma {:induction false} StaleBackendsNone(t: Table<Connection>, uuids: seq<string>)
    requires forall e :: e in t ==> !IsStaleBackend(e.value, uuids)
    ensures StaleBackends(t, uuids) == []
  {
    if t != [] {
      Unsnoc(t);
      StaleBackendsNone(t[..|t| - 1], uuids);
    }
  }

  /** The records whose uuid no backend wants, in their order. */
  function Unwanted(t: Table<Connection>, uuids: seq<string>): Table<Connection> {
    if t == [] then []
    else
      var rest := Unwanted(t[..|t| - 1], uuids);
      if t[|t| - 1].value.uuid in uuids then rest else rest + [t[|t| - 1]]
  }

  /** The user's own records among them. */
  function UnwantedUsers(t: Table<Connection>, uuids: seq<string>): Table<Connection> {
    if t == [] then []
    else
      var rest := UnwantedUsers(t[..|t| - 1], uuids);
      if t[|t| - 1].value.uuid in uuids || t[|t| - 1].value.origin != User then rest else rest + [t[|t| - 1]]
  }

  /** All records with one uuid, in their order. */
  function WithUuid(t: Table<Connection>, uuid: string): Table<Connection> {
    if t == [] then []
    else
      var rest := WithUuid(t[..|t| - 1], uuid);
      if t[|t| - 1].value.uuid == uuid then rest + [t[|t| - 1]] else rest
  }

  lemma {:induction false} UnwantedUsersGrown(t: Table<Connection>, u: Table<Connection>, uuids: seq<string>)
    requires |t| <= |u|
    requires forall i :: 0 <= i < |t| ==> t[i].value.uuid == u[i].value.uuid
    requires forall i :: 0 <= i < |t| && t[i].value.uuid !in uuids ==> u[i] == t[i]
    requires forall i :: |t| <= i < |u| ==> u[i].value.uuid in uuids
    ensures UnwantedUsers(t, uuids) == UnwantedUsers(u, uuids)
  {
    if |u| > |t| {
      UnwantedUsersGrown(t, u[..|u| - 1], uuids);
    } else if t != [] {
      UnwantedUsersGrown(t[..|t| - 1], u[..|u| - 1], uuids);
    }
  }

  lemma {:induction false} UnwantedExcept(t: Table<Connection>, uuids: seq<string>, dead: set<string>)
    requires forall e :: e in t ==> (e.path in dead <==> IsStaleBackend(e.value, uuids))
    ensures Unwanted(Except(t, dead), uuids) == UnwantedUsers(t, uuids)
  {
    if t != [] {
      var front, last := t[..|t| - 1], t[|t| - 1];
      assert t == front + [last] && last in t;
      UnwantedExcept(front, uuids, dead);
      var rest := Except(front, dead);
      assert (rest + [last])[..|rest|] == rest;
    }
  }

  lemma {:induction false} WithUuidExcept(t: Table<Connection>, uuid: string, dead: set<string>)
    requires forall e :: e in t && e.value.uuid == uuid ==> e.path !in dead
    ensures WithUuid(Except(t, dead), uuid) == WithUuid(t, uuid)
  {
    if t != [] {
      var front, last := t[..|t| - 1], t[|t| - 1];
      assert t == front + [last] && last in t;
      WithUuidExcept(front, uuid, dead);
      var rest := Except(front, dead);
      assert (rest + [last])[..|rest|] == rest;
    }
  }

  lemma {:induction false} LookupIsFirstWithUuid(t: Table<Connection>, uuid: string)
    ensures LookupUuid(t, uuid) == if WithUuid(t, uuid) == [] then None else Some(WithUuid(t, uuid)[0])
  {
    if t != [] {
      var front, last := t[..|t| - 1], t[|t| - 1];
      LookupIsFirstWithUuid(front, uuid);
      assert t == front + [last];
      if UuidPosition(front, uuid) < |front| {
        SameUuidsSamePosition(front, t, uuid);
      }
    }
  }

  lemma {:induction false} LookupUuidExcept(t: Table<Connection>, uuid: string, dead: set<string>)
    requires forall e :: e in t && e.value.uuid == uuid ==> e.path !in dead
    ensures LookupUuid(Except(t, dead), uuid) == LookupUuid(t, uuid)
  {
    WithUuidExcept(t, uuid, dead);
    LookupIsFirstWithUuid(t, uuid);
    LookupIsFirstWithUuid(Except(t, dead), uuid);
  }

  // --------------------------------------------------------------- the theorems

  ghost predicate ConnectionsReady(s: State) {
    Distinct(s.connections) && IssuedBelow(PathSet(s.connections), s.nextSettingsId)
  }

  lemma {:induction false} SyncedConnectionsTable(s: State, ws: seq<Wanted>)
    requires ConnectionsReady(s)
    ensures var u, r := UpsertWishes(s, ws), SyncedConnections(s, ws);
            var dead := set p | p in StaleBackends(u.state.connections, Uuids(ws));
            && r.state.connections == Except(u.state.connections, dead)
            && (forall e :: e in u.state.connections ==> (e.path in dead <==> IsStaleBackend(e.value, Uuids(ws))))
            && r.state.nextSettingsId == u.state.nextSettingsId
            && Distinct(u.state.connections) && Grown(s.connections, ws, u.state.connections)
            && ConnectionsReady(r.state)
  {
    UpsertWishesGrows(s, ws);
    var u := UpsertWishes(s, ws);
    var t := u.state.connections;
    var stale := StaleBackends(t, Uuids(ws));
    var dead := set p | p in stale;
    StaleBackendsMembers(t, Uuids(ws));
    RemoveConnectionsIsRemoveAll(u, stale);
    RemoveConnectionsFrame(u, stale);
    RemoveAllShape(Connections, t, stale);
    ExceptPaths(t, dead);
  }

  /** Every wanted uuid has a record, it holds what the last wish for it says, and a record
      that was there before the sync keeps its object path. */
  lemma {:induction false} WantedUuidsAreThere(s: State, ws: seq<Wanted>, uuid: string)
    requires ConnectionsReady(s) && uuid in Uuids(ws)
    ensures var after := SyncedConnections(s, ws).state.connections;
            && Granted(after, ws, uuid)
            && (LookupUuid(s.connections, uuid).Some?
                ==> LookupUuid(after, uuid).value.path == LookupUuid(s.connections, uuid).value.path)
  {
    SyncedConnectionsTable(s, ws);
    UpsertWishesGrant(s, ws);
    var t := UpsertWishes(s, ws).state.connections;
    var dead := set p | p in StaleBackends(t, Uuids(ws));
    hide SyncedConnections, UpsertWishes, StaleBackends, ConnectionsReady, Distinct, Except;
    hide IsStaleBackend, LookupUuid, Granted;
    assert Granted(t, ws, uuid);
    KeepsGranted(t, ws, uuid, dead);
    GrownKeepsPath(s.connections, ws, t, uuid);
  }

  lemma {:induction false} GrownKeepsPath(s: Table<Connection>, ws: seq<Wanted>, t: Table<Connection>, uuid: string)
    requires Grown(s, ws, t)
    ensures LookupUuid(s, uuid).Some? ==>
              LookupUuid(t, uuid).Some? && LookupUuid(t, uuid).value.path == LookupUuid(s, uuid).value.path
  {
    if LookupUuid(s, uuid).Some? {
      SameUuidsSamePosition(s, t, uuid);
    }
  }

  lemma {:induction false} KeepsGranted(t: Table<Connection>, ws: seq<Wanted>, uuid: string, dead: set<string>)
    requires uuid in Uuids(ws) && Granted(t, ws, uuid)
    requires forall e :: e in t ==> (e.path in dead <==> IsStaleBackend(e.value, Uuids(ws)))
    ensures Granted(Except(t, dead), ws, uuid) && LookupUuid(Except(t, dead), uuid) == LookupUuid(t, uuid)
  {
    LookupUuidExcept(t, uuid, dead);
  }

  /** Of the records no backend wants, exactly the user's own survive: unchanged, with their
      paths, in their order. So no backend record is left that is not wanted. */
  lemma {:induction false} UnwantedRecordsAreTheUsers(s: State, ws: seq<Wanted>)
    requires ConnectionsReady(s)
    ensures Unwanted(SyncedConnections(s, ws).state.connections, Uuids(ws)) == UnwantedUsers(s.connections, Uuids(ws))
  {
    SyncedConnectionsTable(s, ws);
    var t := UpsertWishes(s, ws).state.connections;
    UnwantedUsersGrown(s.connections, t, Uuids(ws));
    UnwantedExcept(t, Uuids(ws), set p | p in StaleBackends(t, Uuids(ws)));
  }

  lemma {:induction false} NoStaleBackendsLeft(s: State, ws: seq<Wanted>)
    requires ConnectionsReady(s)
    ensures forall e :: e in SyncedConnections(s, ws).state.connections && e.value.origin != User
              ==> e.value.uuid in Uuids(ws)
    ensures StaleBackends(SyncedConnections(s, ws).state.connections, Uuids(ws)) == []
  {
    SyncedConnectionsTable(s, ws);
    var t := UpsertWishes(s, ws).state.connections;
    var r := SyncedConnections(s, ws).state.connections;
    ExceptMembers(t, set p | p in StaleBackends(t, Uuids(ws)));
    StaleBackendsNone(r, Uuids(ws));
  }

  /** A record that is still there under its path is for the same uuid. */
  lemma {:induction false} SurvivorsKeepPaths(s: State, ws: seq<Wanted>, e: Entry<Connection>)
    requires ConnectionsReady(s) && e in s.connections
    ensures var r := SyncedConnections(s, ws).state.connections;
            e.path in PathSet(r) ==> Lookup(r, e.path).value.value.uuid == e.value.uuid
  {
    SyncedConnectionsTable(s, ws);
    var t := UpsertWishes(s, ws).state.connections;
    var r := SyncedConnections(s, ws).state.connections;
    ExceptMembers(t, set p | p in StaleBackends(t, Uuids(ws)));
    if e.path in PathSet(r) {
      var i :| 0 <= i < |s.connections| && s.connections[i] == e;
      var found := Lookup(r, e.path).value;
      var k :| 0 <= k < |t| && t[k] == found;
      assert t[i].path == t[k].path;
    }
  }

  lemma {:induction false} ExceptKeepsOrder(t: Table<Connection>, dead: set<string>, i: nat, j: nat)
    requires Distinct(t) && i < j < |t| && t[i].path !in dead && t[j].path !in dead
    ensures var r := Except(t, dead); Position(r, t[i].path) < Position(r, t[j].path) < |r|
  {
    var front, last := t[..|t| - 1], t[|t| - 1];
    var rest, r := Except(front, dead), Except(t, dead);
    Unsnoc(t);
    ExceptPaths(front, dead);
    assert front[i] == t[i] && front[i] in front;
    assert r == if last.path in dead then rest else rest + [last];
    hide Except, Distinct;
    if j < |front| {
      ExceptKeepsOrder(front, dead, i, j);
      assert t[i].path in PathSet(front) - dead && front[j] == t[j] && t[j] in front;
      hide PathSet;
      FirstPart(rest, last, t[i].path);
      FirstPart(rest, last, t[j].path);
    } else {
      assert t[i].path in PathSet(front) - dead && last.path !in PathSet(rest);
      hide PathSet;
      FirstPart(rest, last, t[i].path);
    }
  }

  /** Two records that survive keep their relative order. */
  lemma {:induction false} SurvivorsKeepOrder(s: State, ws: seq<Wanted>, i: nat, j: nat)
    requires ConnectionsReady(s) && i < j < |s.connections|
    requires var r := SyncedConnections(s, ws).state.connections;
             s.connections[i].path in PathSet(r) && s.connections[j].path in PathSet(r)
    ensures var r := SyncedConnections(s, ws).state.connections;
            Position(r, s.connections[i].path) < Position(r, s.connections[j].path)
  {
    SyncedConnectionsTable(s, ws);
    var t := UpsertWishes(s, ws).state.connections;
    var dead := set p | p in StaleBackends(t, Uuids(ws));
    ExceptPaths(t, dead);
    hide SyncedConnections, UpsertWishes, StaleBackends, Except, PathSet;
    ExceptKeepsOrder(t, dead, i, j);
  }

  /** What the upserts announce is not stale, so the removals do not mention it. */
  lemma {:induction false} UpsertedIsNotStale(s: State, ws: seq<Wanted>, o: Object)
    requires ConnectionsReady(s) && Mentions(UpsertWishes(s, ws).log, o)
    ensures var t := UpsertWishes(s, ws).state.connections;
            !Mentions(RemoveAll(Connections, t, StaleBackends(t, Uuids(ws))).log, o)
  {
    UpsertWishesGrows(s, ws);
    var u := UpsertWishes(s, ws);
    var t := u.state.connections;
    var stale := StaleBackends(t, Uuids(ws));
    assert o in Objects(Connections, t) && o !in Objects(Connections, s.connections);
    hide UpsertWishes, ConnectionsReady;
    var i := Position(t, o.path);
    forall k | 0 <= k < |s.connections| ensures t[k].path != o.path {
      assert s.connections[k] in s.connections;
    }
    assert t[i] in t && !IsStaleBackend(t[i].value, Uuids(ws));
    DistinctLookup(t, i);
    StaleBackendsMembers(t, Uuids(ws));
    RemoveAllExact(Connections, t, stale);
    RemoveAllShape(Connections, t, stale);
    ExceptMembers(t, set p | p in stale);
    assert o in Objects(Connections, RemoveAll(Connections, t, stale).table);
  }

  /** The announcements of the connection phase are exact. */
  lemma {:induction false} SyncedConnectionsExact(s: State, ws: seq<Wanted>)
    requires ConnectionsReady(s)
    ensures var r := SyncedConnections(s, ws);
            Exact(Objects(Connections, s.connections), r.log, Objects(Connections, r.state.connections))
  {
    UpsertWishesGrows(s, ws);
    var u := UpsertWishes(s, ws);
    var t := u.state.connections;
    var stale := StaleBackends(t, Uuids(ws));
    StaleBackendsMembers(t, Uuids(ws));
    RemoveConnectionsIsRemoveAll(u, stale);
    assert SyncedConnections(s, ws) == RemoveConnections(u, stale);
    hide UpsertWishes, SyncedConnections, RemoveConnections, RemoveAll, StaleBackends, Distinct, NoRepeats;
    RemoveAllExact(Connections, t, stale);
    var second := RemoveAll(Connections, t, stale);
    forall o | Mentions(u.log, o) ensures !Mentions(second.log, o) {
      UpsertedIsNotStale(s, ws, o);
    }
    hide Exact, Objects, Mentions;
    ExactThen(Objects(Connections, s.connections), u.log, Objects(Connections, t), second.log,
              Objects(Connections, second.table));
  }

  /** Growing a table that grants every wish already leaves it as it is. */
  lemma {:induction false} GrownGranted(t: Table<Connection>, ws: seq<Wanted>, u: Table<Connection>)
    requires Grown(t, ws, u) && AllGranted(t, ws) && AllGranted(u, ws)
    ensures u == t
  {
    assert |u| > |t| ==> u[|t|].value.uuid in Uuids(ws) && Granted(t, ws, u[|t|].value.uuid);
    forall i | 0 <= i < |t| ensures u[i] == t[i] {
      var uuid := t[i].value.uuid;
      if uuid in Uuids(ws) && UuidPosition(t, uuid) == i {
        SameUuidsSamePosition(t, u, uuid);
        assert Granted(t, ws, uuid) && Granted(u, ws, uuid);
      }
    }
  }

  /** A second sync with the same wishes leaves the table and the next path alone. */
  lemma {:induction false} SyncedConnectionsAgain(s: State, ws: seq<Wanted>)
    requires ConnectionsReady(s)
    ensures var once := SyncedConnections(s, ws).state;
            var twice := SyncedConnections(once, ws);
            twice.log == [] && twice.state == once.(versionId := twice.state.versionId)
  {
    var once := SyncedConnections(s, ws).state;
    SyncedConnectionsTable(s, ws);
    forall uuid | uuid in Uuids(ws) ensures Granted(once.connections, ws, uuid) {
      WantedUuidsAreThere(s, ws, uuid);
    }
    UpsertWishesGrows(once, ws);
    UpsertWishesGrant(once, ws);
    GrownGranted(once.connections, ws, UpsertWishes(once, ws).state.connections);
    NoStaleBackendsLeft(s, ws);
    UpsertWishesFrame(once, ws);
  }
}
