/** A sync and the edits of a connection as runs of the state machine: everything proved of every run
    holds in the middle of them too. */
module SystemRuns {
  import opened Text
  import opened ObjectPaths
  import opened Tables
  import opened RuntimeState
  import opened Backends
  import opened Sync
  import opened System

  lemma {:induction false} RunSnoc(s: Sys, actions: seq<Action>, a: Action)
    ensures Run(s, actions + [a]) == Step(Run(s, actions), a)
  {
    hide Step;
    assert (actions + [a])[..|actions|] == actions;
  }

  lemma {:induction false} NoAction(s: Sys)
    ensures Run(s, []) == s
  {
  }

  lemma {:induction false} OneAction(s: Sys, a: Action)
    ensures Run(s, [a]) == Step(s, a)
  {
    hide Step;
    assert [a][..0] == [];
  }

  lemma {:induction false} FourActions(s: Sys, a: Action, b: Action, c: Action, d: Action)
    ensures Run(s, [a, b, c, d]) == Step(Step(Step(Step(s, a), b), c), d)
  {
    hide Step;
    OneAction(s, a);
    RunSnoc(s, [a], b);
    RunSnoc(s, [a, b], c);
    RunSnoc(s, [a, b, c], d);
    assert [a] + [b] == [a, b] && [a, b] + [c] == [a, b, c] && [a, b, c] + [d] == [a, b, c, d];
  }

  /** Everything but the tables of the runtime. */
  predicate SameOutside(s: Sys, r: Sys) {
    r.files == s.files && r.now == s.now && r.rt.checkpoints == s.rt.checkpoints
  }

  // ------------------------------------------------------------------ connections

  lemma {:induction false} OneWish(s: Sys, c: nat, w: Wanted, log: seq<Signal>)
    returns (actions: seq<Action>)
    requires At(s, c) == Idle
    ensures var r := Run(s, actions);
            && r.rt == UpsertWanted(Synced(s.rt, log), w).state && At(r, c) == Idle
            && SameOutside(s, r)
  {
    hide SettingsPath;
    match LookupUuid(s.rt.connections, w.uuid)
    case Some(existing) =>
      actions := [Update(existing.path, Realized(w))];
      assert actions[..0] == [];
    case None =>
      actions := [NextPath(c), Insert(c, Realized(w))];
      assert actions[..1] == [NextPath(c)] && actions[..1][..0] == [];
      assert Run(s, actions[..1]) == Step(s, NextPath(c));
  }

  lemma {:induction false} WishActions(s: Sys, c: nat, ws: seq<Wanted>)
    returns (actions: seq<Action>)
    requires At(s, c) == Idle
    ensures var r := Run(s, actions);
            && r.rt == UpsertWishes(s.rt, ws).state && At(r, c) == Idle
            && SameOutside(s, r)
  {
    if ws == [] {
      actions := [];
    } else {
      var front, w := ws[..|ws| - 1], ws[|ws| - 1];
      var first := WishActions(s, c, front);
      var second := OneWish(Run(s, first), c, w, UpsertWishes(s.rt, front).log);
      hide UpsertWanted, At, Step;
      actions := first + second;
      RunAppend(s, first, second);
    }
  }

  lemma {:induction false} RemoveActions(s: Sys, paths: seq<string>, log: seq<Signal>)
    returns (actions: seq<Action>)
    ensures Run(s, actions) == s.(rt := RemoveConnections(Synced(s.rt, log), paths).state)
  {
    hide AfterRemoveConnection;
    actions := [];
    if paths != [] {
      actions := RemoveActions(s, paths[..|paths| - 1], log);
      RunSnoc(s, actions, Remove(paths[|paths| - 1]));
      hide Run;
      actions := actions + [Remove(paths[|paths| - 1])];
    }
  }

  // ---------------------------------------------------------------- access points

  lemma {:induction false} PutAccessPoints(s: Sys, es: Table<AccessPoint>)
    returns (actions: seq<Action>)
    ensures Run(s, actions) == s.(rt := s.rt.(accessPoints := UpsertAll(AccessPoints, s.rt.accessPoints, es).table))
  {
    hide Upsert, Lookup;
    actions := [];
    if es != [] {
      var a := EditTables(PutAccessPoint(es[|es| - 1]));
      actions := PutAccessPoints(s, es[..|es| - 1]);
      RunSnoc(s, actions, a);
      hide Run;
      actions := actions + [a];
    }
  }

  lemma {:induction false} DropAccessPoints(s: Sys, paths: seq<string>)
    returns (actions: seq<Action>)
    ensures Run(s, actions) == s.(rt := s.rt.(accessPoints := RemoveAll(AccessPoints, s.rt.accessPoints, paths).table))
  {
    hide Without;
    actions := [];
    if paths != [] {
      var a := EditTables(DropAccessPoint(paths[|paths| - 1]));
      actions := DropAccessPoints(s, paths[..|paths| - 1]);
      RunSnoc(s, actions, a);
      hide Run;
      actions := actions + [a];
    }
  }

  // ---------------------------------------------------------------------- devices

  lemma {:induction false} DropOneDevice(s: Sys, path: string,
                                         found: Option<Entry<Device>>)
    returns (actions: seq<Action>)
    ensures Run(s, actions) == s.(rt := s.rt.(
              devices := Without(s.rt.devices, path),
              wirelessDevices := match found
                                 case Some(d) => Without(s.rt.wirelessDevices, d.value.interfaceName)
                                 case None => s.rt.wirelessDevices))
  {
    hide Without;
    actions := [EditTables(TableEdit.DropDevice(path))];
    assert actions[..0] == [];
    if found.Some? {
      var a := EditTables(TableEdit.DropWireless(found.value.value.interfaceName));
      RunSnoc(s, actions, a);
      actions := actions + [a];
    }
  }

  lemma {:induction false} DropDevices(s: Sys, stale: seq<string>)
    returns (actions: seq<Action>)
    ensures Run(s, actions) == s.(rt := s.rt.(
              devices := RemoveAll(Devices, s.rt.devices, stale).table,
              wirelessDevices := Sync.DropWireless(s.rt.wirelessDevices, s.rt.devices, stale)))
  {
    hide Without, Lookup, Step;
    actions := [];
    if stale != [] {
      var front, path := stale[..|stale| - 1], stale[|stale| - 1];
      var first := DropDevices(s, front);
      var second := DropOneDevice(Run(s, first), path, Lookup(s.rt.devices, path));
      RunAppend(s, first, second);
      hide Run;
      actions := first + second;
    }
  }

  lemma {:induction false} WirelessActions(s: Sys, env: Env, iwd: Iwd, link: Link)
    returns (actions: seq<Action>)
    ensures Run(s, actions) == s.(rt := s.rt.(
              wirelessDevices := WirelessOfDevice(env, iwd, s.rt.wirelessDevices, link)))
  {
    hide Without, Upsert, WirelessEntry, Run;
    if link.linkType == Wlan {
      actions := [EditTables(PutWireless(WirelessEntry(env, iwd, link)))];
      OneAction(s, actions[0]);
    } else if link.linkType == Ether || link.linkType == Loopback {
      actions := [];
      NoAction(s);
    } else {
      actions := [EditTables(TableEdit.DropWireless(link.name))];
      OneAction(s, actions[0]);
    }
  }

  lemma {:induction false} PutOneDevice(s: Sys, env: Env, iwd: Iwd, link: Link)
    returns (actions: seq<Action>)
    ensures Run(s, actions) == s.(rt := s.rt.(
              devices := Upsert(s.rt.devices, DeviceEntry(env, iwd, link)),
              wirelessDevices := WirelessOfDevice(env, iwd, s.rt.wirelessDevices, link)))
  {
    hide Upsert, DeviceEntry, WirelessOfDevice, Run;
    var put := EditTables(PutDevice(DeviceEntry(env, iwd, link)));
    var first := WirelessActions(s, env, iwd, link);
    RunSnoc(s, first, put);
    actions := first + [put];
  }

  lemma {:induction false} PutDevices(s: Sys, env: Env, iwd: Iwd, links: seq<Link>)
    returns (actions: seq<Action>)
    ensures Run(s, actions) == s.(rt := s.rt.(
              devices := UpsertAll(Devices, s.rt.devices, WantedDevices(env, iwd, links)).table,
              wirelessDevices := WirelessOfDevices(env, iwd, s.rt.wirelessDevices, links)))
  {
    hide Without, Lookup, Upsert, DeviceEntry, WirelessOfDevice, Step;
    actions := [];
    if links != [] {
      var front, last := links[..|links| - 1], links[|links| - 1];
      var first := PutDevices(s, env, iwd, front);
      var second := PutOneDevice(Run(s, first), env, iwd, last);
      RunAppend(s, first, second);
      WantedDevicesSnoc(env, iwd, links);
      hide Run, WantedDevices;
      actions := first + second;
    }
  }

  lemma {:induction false} WantedDevicesSnoc(env: Env, iwd: Iwd, links: seq<Link>)
    requires links != []
    ensures var es, front := WantedDevices(env, iwd, links), WantedDevices(env, iwd, links[..|links| - 1]);
            es != [] && es[..|es| - 1] == front && es[|es| - 1] == DeviceEntry(env, iwd, links[|links| - 1])
  {
    hide DeviceEntry;
  }

  lemma {:induction false} TableStep(s: Sys, edit: TableEdit)
    ensures Step(s, EditTables(edit)) == s.(rt := AfterTableEdit(s.rt, edit))
  {
    hide AfterTableEdit;
  }

  lemma {:induction false} RefreshActions(s: Sys, env: Env, iwd: Iwd, links: seq<Link>) returns (actions: seq<Action>)
    ensures Run(s, actions) == s.(rt := s.rt.(
              wirelessDevices := RefreshWireless(env, iwd, s.rt.wirelessDevices, links)))
  {
    hide Upsert, WirelessEntry, Step, Run;
    if links == [] {
      actions := [];
      NoAction(s);
    } else {
      var last := links[|links| - 1];
      actions := RefreshActions(s, env, iwd, links[..|links| - 1]);
      if last.linkType == Wlan {
        var edit := PutWireless(WirelessEntry(env, iwd, last));
        RunSnoc(s, actions, EditTables(edit));
        TableStep(Run(s, actions), edit);
        actions := actions + [EditTables(edit)];
      }
    }
  }

  // ----------------------------------------------------------- active connections

  lemma {:induction false} DropActives(s: Sys, paths: seq<string>)
    returns (actions: seq<Action>)
    ensures Run(s, actions)
         == s.(rt := s.rt.(activeConnections := RemoveAll(ActiveConnections, s.rt.activeConnections, paths).table))
  {
    hide Without;
    actions := [];
    if paths != [] {
      var a := DropActive(paths[|paths| - 1]);
      actions := DropActives(s, paths[..|paths| - 1]);
      RunSnoc(s, actions, a);
      hide Run;
      actions := actions + [a];
    }
  }

  lemma {:induction false} PushActives(s: Sys, es: Table<ActiveConnection>)
    returns (actions: seq<Action>)
    ensures Run(s, actions)
         == s.(rt := s.rt.(activeConnections := RepushAll(ActiveConnections, s.rt.activeConnections, es).table))
  {
    hide Repush, Lookup;
    actions := [];
    if es != [] {
      var a := PushActive(es[|es| - 1]);
      actions := PushActives(s, es[..|es| - 1]);
      RunSnoc(s, actions, a);
      hide Run;
      actions := actions + [a];
    }
  }

  // --------------------------------------------------------------------- the sync

  lemma {:induction false} ConnectionPhase(s: Sys, c: nat, ws: seq<Wanted>)
    returns (actions: seq<Action>)
    requires At(s, c) == Idle
    ensures var r := Run(s, actions);
            r.rt == SyncedConnections(s.rt, ws).state && At(r, c) == Idle && SameOutside(s, r)
  {
    var first := WishActions(s, c, ws);
    var upserted := UpsertWishes(s.rt, ws);
    var stale := StaleBackends(upserted.state.connections, Uuids(ws));
    var second := RemoveActions(Run(s, first), stale, upserted.log);
    RemoveConnectionsFrame(upserted, stale);
    RunAppend(s, first, second);
    hide Run, UpsertWishes, RemoveConnections, StaleBackends, Uuids;
    actions := first + second;
  }

  lemma {:induction false} AccessPointPhase(s: Sys, wanted: Table<AccessPoint>)
    returns (actions: seq<Action>)
    ensures Run(s, actions) == s.(rt := s.rt.(accessPoints := SyncedAccessPoints(s.rt.accessPoints, wanted).table))
  {
    var upserted := UpsertAll(AccessPoints, s.rt.accessPoints, wanted);
    var first := PutAccessPoints(s, wanted);
    var second := DropAccessPoints(Run(s, first), Stale(upserted.table, Paths(wanted)));
    RunAppend(s, first, second);
    hide Run, UpsertAll, RemoveAll, Stale, Paths;
    actions := first + second;
  }

  lemma {:induction false} DevicePhase(s: Sys, env: Env, iwd: Iwd, links: seq<Link>)
    returns (actions: seq<Action>)
    ensures Run(s, actions) == s.(rt := s.rt.(
              devices := SyncedDevices(s.rt.devices, WantedDevices(env, iwd, links)).table,
              wirelessDevices := SyncedWireless(env, iwd, s.rt.wirelessDevices, s.rt.devices, links)))
  {
    hide UpsertAll, RemoveAll, Stale, Paths, WantedDevices, Sync.DropWireless, WirelessOfDevices, RefreshWireless, Step;
    var stale := Stale(s.rt.devices, Paths(WantedDevices(env, iwd, links)));
    var first := DropDevices(s, stale);
    var second := PutDevices(Run(s, first), env, iwd, links);
    var third := RefreshActions(Run(Run(s, first), second), env, iwd, links);
    RunAppend(s, first, second);
    RunAppend(s, first + second, third);
    hide Run;
    actions := first + second + third;
  }

  lemma {:induction false} ActivePhase(s: Sys, wanted: Table<ActiveConnection>)
    returns (actions: seq<Action>)
    ensures Run(s, actions)
         == s.(rt := s.rt.(activeConnections := SyncedActives(s.rt.activeConnections, wanted).table))
  {
    hide RemoveAll, RepushAll, Stale, Paths, Step;
    var first := DropActives(s, Stale(s.rt.activeConnections, Paths(wanted)));
    var second := PushActives(Run(s, first), wanted);
    RunAppend(s, first, second);
    hide Run;
    actions := first + second;
  }

  /** A completed sync is a run of atomic steps, each with the runtime only: it leaves what such a run
      leaves, touches no file, no checkpoint and no clock, and puts its caller back to rest. */
  lemma {:induction false} SyncIsARun(s: Sys, c: nat, env: Env, links: seq<Link>,
                                      iwd: Iwd)
    returns (actions: seq<Action>)
    requires At(s, c) == Idle
    ensures var r := Run(s, actions);
            r.rt == AfterSync(env, s.rt, links, iwd).state && At(r, c) == Idle && SameOutside(s, r)
  {
    hide SyncedConnections, SyncedAccessPoints, SyncedDevices, SyncedActives, SyncedWireless, WantedDevices;
    hide WantedAccessPoints, WantedActives, Wishes, Step, Run;
    var first := ConnectionPhase(s, c, Wishes(env, links, iwd));
    var a := Run(s, first);
    SyncedConnectionsFrame(s.rt, Wishes(env, links, iwd));
    var second := AccessPointPhase(a, WantedAccessPoints(env, iwd, iwd.stations));
    var b := Run(a, second);
    var third := DevicePhase(b, env, iwd, links);
    var d := Run(b, third);
    var fourth := ActivePhase(d, WantedActives(env, iwd, a.rt.connections, links));
    RunAppend(s, first, second);
    RunAppend(s, first + second, third);
    RunAppend(s, first + second + third, fourth);
    actions := first + second + third + fourth;
  }
}
