/** What a rollback brings back after whatever happened since its checkpoint, field by field. */
module SystemRollback {
  import opened Text
  import opened ObjectPaths
  import opened Tables
  import opened RuntimeState
  import opened RuntimeStore
  import opened System
  import opened SystemSteps
  import opened SystemCheckpoints
  import opened SystemPaths
  import opened SystemTables

  /** The text after the last slash of some path of the list. */
  predicate EndsAPath(paths: seq<string>, name: string) {
    exists p :: p in paths && LastSegment(p) == name
  }

  /** The settings put the connection on an interface of the list. */
  predicate NamesOneOf(c: Connection, paths: seq<string>) {
    var name := TextSetting(c.settings, "connection", "interface-name");
    name.Some? && EndsAPath(paths, name.value)
  }

  /** Some device of the active connection and some path of the list end alike. */
  predicate RunsOnOneOf(a: ActiveConnection, paths: seq<string>) {
    exists d :: d in a.devices && EndsAPath(paths, LastSegment(d))
  }

  /** Exactly the connections on the listed devices, as they were, in the order they had. */
  ghost predicate ConnectionsOf(part: Table<Connection>, whole: Table<Connection>, paths: seq<string>) {
    && KeepsOrder(part, whole)
    && forall e :: e in part <==> e in whole && NamesOneOf(e.value, paths)
  }

  /** Exactly the active connections on the listed devices, as they were, in the order they had. */
  ghost predicate ActivesOf(part: Table<ActiveConnection>, whole: Table<ActiveConnection>, paths: seq<string>) {
    && KeepsOrder(part, whole)
    && forall e :: e in part <==> e in whole && RunsOnOneOf(e.value, paths)
  }

  /** Exactly the managed flags of the listed devices, with their values. */
  ghost predicate ManagedOf(part: map<string, bool>, whole: map<string, bool>, paths: seq<string>) {
    && (forall k :: k in part <==> k in whole && EndsAPath(paths, k))
    && forall k :: k in part && k in whole ==> part[k] == whole[k]
  }

  lemma {:induction false} InterfacesAreEnds(paths: seq<string>, name: string)
    ensures name in InterfacesOf(paths) <==> EndsAPath(paths, name)
  {
    if p :| p in paths && LastSegment(p) == name {
      var i :| 0 <= i < |paths| && paths[i] == p;
      assert InterfacesOf(paths)[i] == name;
    }
  }

  lemma {:induction false} OnIsNamed(c: Connection, paths: seq<string>)
    ensures ConnectionOn(c, InterfacesOf(paths)) <==> NamesOneOf(c, paths)
  {
    if c.InterfaceName().Some? {
      InterfacesAreEnds(paths, c.InterfaceName().value);
    }
  }

  lemma {:induction false} OnIsRunning(a: ActiveConnection, paths: seq<string>)
    ensures ActiveOn(a, InterfacesOf(paths)) <==> RunsOnOneOf(a, paths)
  {
    hide InterfacesOf, EndsAPath;
    forall d ensures LastSegment(d) in InterfacesOf(paths) <==> EndsAPath(paths, LastSegment(d)) {
      InterfacesAreEnds(paths, LastSegment(d));
    }
  }

  lemma {:induction false} CapturedConnections(t: Table<Connection>, paths: seq<string>)
    requires Distinct(t)
    ensures ConnectionsOf(ConnectionsOn(t, InterfacesOf(paths)), t, paths)
  {
    ConnectionsOnMembers(t, InterfacesOf(paths));
    forall e: Entry<Connection> ensures ConnectionOn(e.value, InterfacesOf(paths)) <==> NamesOneOf(e.value, paths) {
      OnIsNamed(e.value, paths);
    }
    ConnectionsInOrder(t, InterfacesOf(paths));
    hide ConnectionsOn, ConnectionOn, NamesOneOf, KeepsOrder, InterfacesOf, Distinct;
  }

  lemma {:induction false} ConnectionsInOrder(t: Table<Connection>, interfaces: seq<string>)
    requires Distinct(t)
    ensures KeepsOrder(ConnectionsOn(t, interfaces), t)
  {
    if t != [] {
      var front, last := t[..|t| - 1], t[|t| - 1];
      Unsnoc(t);
      hide ConnectionOn, KeepsOrder, Distinct;
      ConnectionsInOrder(front, interfaces);
      KeepsOrderSnoc(ConnectionsOn(front, interfaces), front, last);
    }
  }

  lemma {:induction false} CapturedActives(t: Table<ActiveConnection>, paths: seq<string>)
    requires Distinct(t)
    ensures ActivesOf(ActivesOn(t, InterfacesOf(paths)), t, paths)
  {
    ActivesOnMembers(t, InterfacesOf(paths));
    forall e: Entry<ActiveConnection>
      ensures ActiveOn(e.value, InterfacesOf(paths)) <==> RunsOnOneOf(e.value, paths)
    {
      OnIsRunning(e.value, paths);
    }
    ActivesInOrder(t, InterfacesOf(paths));
    hide ActivesOn, ActiveOn, RunsOnOneOf, KeepsOrder, InterfacesOf, Distinct;
  }

  lemma {:induction false} ActivesInOrder(t: Table<ActiveConnection>, interfaces: seq<string>)
    requires Distinct(t)
    ensures KeepsOrder(ActivesOn(t, interfaces), t)
  {
    if t != [] {
      var front, last := t[..|t| - 1], t[|t| - 1];
      Unsnoc(t);
      hide ActiveOn, KeepsOrder, Distinct;
      ActivesInOrder(front, interfaces);
      KeepsOrderSnoc(ActivesOn(front, interfaces), front, last);
    }
  }

  lemma {:induction false} CapturedFlags(s: State, paths: seq<string>)
    ensures ManagedOf(Slice(s, paths).deviceManaged, s.deviceManaged, paths)
  {
    hide InterfacesOf, EndsAPath, ActivesOn, ConnectionsOn;
    var part := Slice(s, paths).deviceManaged;
    forall k ensures k in part <==> k in s.deviceManaged && EndsAPath(paths, k) {
      InterfacesAreEnds(paths, k);
    }
  }

  /** What a checkpoint over these devices, made in the first state, makes of the second one. */
  ghost predicate BroughtBack(made: State, devices: seq<string>, before: State, after: State) {
    && after.hostname == made.hostname
    && after.networkingEnabled == made.networkingEnabled
    && after.sleeping == made.sleeping
    && ManagedOf(after.deviceManaged, made.deviceManaged, devices)
    && ConnectionsOf(after.connections, made.connections, devices)
    && ActivesOf(after.activeConnections, made.activeConnections, devices)
    && after.accessPoints == before.accessPoints
    && after.devices == before.devices
    && after.wirelessDevices == before.wirelessDevices
    && after.checkpoints == before.checkpoints
    && after.nextSettingsId == before.nextSettingsId
    && after.nextCheckpointId == before.nextCheckpointId
    && after.versionId == before.versionId + 1
  }

  lemma {:induction false} RestoreBringsBack(made: State, devices: seq<string>, later: State)
    requires Distinct(made.connections) && Distinct(made.activeConnections)
    ensures BroughtBack(made, devices, later, AfterRestore(later, Slice(made, devices)))
  {
    CapturedConnections(made.connections, devices);
    CapturedActives(made.activeConnections, devices);
    CapturedFlags(made, devices);
    hide ManagedOf, ConnectionsOf, ActivesOf, ActivesOn, ConnectionsOn, InterfacesOf, Distinct;
  }

  /** Whatever happens between the capture of a checkpoint and its rollback, the hostname and both
      switches are again what they were at the capture; of the managed flags, the connections and the
      active connections exactly those on the listed devices are there, as they were and in their
      order; everything else stays what it was just before. */
  lemma {:induction false} RollbackBringsBack(s: Sys, before: seq<Action>, c: nat, devices: seq<string>,
                                              timeout: nat, between: seq<Action>, d: nat)
    requires Initial(s)
    requires At(Run(s, before), c).Named?
    requires var reached := Run(Step(Run(s, before), Capture(c, devices, timeout)), between);
             At(reached, d).FilesBack? && At(reached, d).cp == At(Run(s, before), c).cp
    ensures var reached := Run(Step(Run(s, before), Capture(c, devices, timeout)), between);
            BroughtBack(Run(s, before).rt, devices, reached.rt, Step(reached, RestoreState(d)).rt)
  {
    var made := Run(s, before).rt;
    var reached := Run(Step(Run(s, before), Capture(c, devices, timeout)), between);
    RollbackReturnsToCapture(s, before, c, devices, timeout, between, d);
    ReadyUnderInterleaving(s, before);
    hide Initial, Run, Step, Slice, AfterRestore, BroughtBack;
    RestoreBringsBack(made, devices, reached.rt);
  }

  /** The hostname, the two switches and the managed flags. */
  ghost predicate SameSettings(r: State, hostname: string, networkingEnabled: bool, sleeping: bool,
                               deviceManaged: map<string, bool>) {
    && r.hostname == hostname && r.networkingEnabled == networkingEnabled && r.sleeping == sleeping
    && r.deviceManaged == deviceManaged
  }

  /** Nothing but its own setter and a rollback changes the hostname, a switch or a managed flag. */
  lemma {:induction false} SettingsAfter(s: Sys, a: Action)
    ensures var r, r' := s.rt, Step(s, a).rt;
            if a.RestoreState? && At(s, a.c).FilesBack? then
              var back := At(s, a.c).record.snapshot;
              SameSettings(r', back.hostname, back.networkingEnabled, back.sleeping, back.deviceManaged)
            else
              SameSettings(r', if a.SetHost? then a.name else r.hostname,
                           if a.SetNetworking? then a.enabled else r.networkingEnabled,
                           if a.SetAsleep? then a.asleep else r.sleeping,
                           if a.SetManaged? then r.deviceManaged[a.interfaceName := a.managed] else r.deviceManaged)
  {
    if IsPassive(a) {
      PassiveSettings(s, a);
    } else if a.RestoreState? {
      hide StepPassive, FilesOf;
    } else {
      CallersKeepSettings(s, a);
    }
    hide Step;
  }

  lemma {:induction false} CallersKeepSettings(s: Sys, a: Action)
    requires !IsPassive(a) && !a.RestoreState?
    ensures SameSettings(Step(s, a).rt, s.rt.hostname, s.rt.networkingEnabled, s.rt.sleeping, s.rt.deviceManaged)
  {
    hide StepPassive, FilesOf, SettingsPath, CheckpointPath, Lookup, RollbackTimeout, Without, AfterAdjust, Slice;
    hide AfterRestore;
  }

  lemma {:induction false} PassiveSettings(s: Sys, a: Action)
    requires IsPassive(a)
    ensures var r := s.rt;
            SameSettings(Step(s, a).rt, if a.SetHost? then a.name else r.hostname,
                         if a.SetNetworking? then a.enabled else r.networkingEnabled,
                         if a.SetAsleep? then a.asleep else r.sleeping,
                         if a.SetManaged? then r.deviceManaged[a.interfaceName := a.managed] else r.deviceManaged)
  {
    hide Without, Repush, Upsert, Position;
  }
}
