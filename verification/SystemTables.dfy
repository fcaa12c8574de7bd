/** The ordered tables keep distinct paths under every interleaving, so that what is proved of a
    sync, of clearing and of a rollback holds from every reachable state. */
module SystemTables {
  import opened Text
  import opened ObjectPaths
  import opened Tables
  import opened RuntimeState
  import opened RuntimeStore
  import opened Backends
  import opened Sync
  import opened SyncConnectionFacts
  import opened SyncTheorems
  import opened System
  import opened SystemSteps
  import opened SystemPaths
  import opened SystemTimers

  /** The active connections of the snapshot that a caller carries. */
  function CarriedActives(caller: Caller): Option<Table<ActiveConnection>> {
    match caller
    case Captured(_, _, _, _, snapshot) => Some(snapshot.activeConnections)
    case Filed(_, record) => Some(record.snapshot.activeConnections)
    case Won(_, record) => Some(record.snapshot.activeConnections)
    case FilesBack(_, record) => Some(record.snapshot.activeConnections)
    case _ => None
  }

  ghost predicate CarriedDistinct(caller: Caller) {
    CarriedActives(caller).Some? ==> Distinct(CarriedActives(caller).value)
  }

  /** In the live table, in every stored snapshot and in every snapshot a caller carries. */
  ghost predicate ActivesDistinct(s: Sys) {
    && Distinct(s.rt.activeConnections)
    && (forall e :: e in s.rt.checkpoints ==> Distinct(e.value.snapshot.activeConnections))
    && (forall c: nat :: CarriedDistinct(At(s, c)))
  }

  ghost predicate OthersDistinct(s: Sys) {
    Distinct(s.rt.accessPoints) && Distinct(s.rt.devices) && Distinct(s.rt.wirelessDevices)
  }

  ghost predicate MayCarry(s: Sys, a: Action, before: Option<Table<ActiveConnection>>,
                           after: Option<Table<ActiveConnection>>) {
    || after.None? || after == before
    || (a.Capture? && after == Some(ActivesOn(s.rt.activeConnections, InterfacesOf(a.deviceList))))
    || (a.Win? && Lookup(s.rt.checkpoints, a.cp).Some?
        && after == Some(Lookup(s.rt.checkpoints, a.cp).value.value.snapshot.activeConnections))
  }

  lemma {:induction false} MoverCarries(s: Sys, a: Action, d: nat)
    requires Mover(a) == Some(d)
    ensures MayCarry(s, a, CarriedActives(At(s, d)), CarriedActives(At(Step(s, a), d)))
  {
    hide StepPassive, FilesOf, SettingsPath, CheckpointPath, Lookup, RollbackTimeout, Without;
    hide ActivesOn, ConnectionsOn, InterfacesOf;
    match a {
      case Win(c, cp) => assert Step(s, a) == if MayWin(At(s, c), cp) then StepWin(s, c, cp) else s;
      case Tick(c) => assert Step(s, a) == if At(s, c).Watching? then StepTick(s, c, At(s, c).cp) else s;
      case _ =>
    }
  }

  lemma {:induction false} CarriedAfter(s: Sys, a: Action, d: nat)
    ensures MayCarry(s, a, CarriedActives(At(s, d)), CarriedActives(At(Step(s, a), d)))
  {
    if Mover(a) == Some(d) {
      MoverCarries(s, a, d);
    } else {
      CallerAfter(s, a, d);
      hide Step;
    }
  }

  lemma {:induction false} ActivesAfter(s: Sys, a: Action)
    ensures var t, t' := s.rt.activeConnections, Step(s, a).rt.activeConnections;
            match a
            case PushActive(e) => t' == Repush(t, e)
            case DropActive(path) => t' == Without(t, path)
            case RestoreState(c) => t' == if At(s, c).FilesBack? then At(s, c).record.snapshot.activeConnections else t
            case _ => t' == t
  {
    if IsPassive(a) {
      hide Without, Repush, Upsert, Position;
    } else {
      hide StepPassive, FilesOf, SettingsPath, CheckpointPath, Lookup, RollbackTimeout, Without, AfterAdjust, Slice;
    }
  }

  lemma {:induction false} OthersAfter(s: Sys, a: Action)
    ensures var r, r' := s.rt, Step(s, a).rt;
            var edited := if a.EditTables? then AfterTableEdit(r, a.edit) else r;
            && r'.accessPoints == edited.accessPoints && r'.devices == edited.devices
            && r'.wirelessDevices == edited.wirelessDevices
  {
    if a.EditTables? {
      hide AfterTableEdit;
    } else if IsPassive(a) {
      hide AfterTableEdit, Without, Repush, Position;
      PlainTables(s, a);
    } else {
      hide StepPassive, FilesOf, SettingsPath, CheckpointPath, Lookup, RollbackTimeout, Without, AfterAdjust, Slice;
    }
  }

  lemma {:induction false} PlainTables(s: Sys, a: Action)
    requires IsPassive(a) && !a.EditTables?
    ensures var r, r' := s.rt, Step(s, a).rt;
            r'.accessPoints == r.accessPoints && r'.devices == r.devices && r'.wirelessDevices == r.wirelessDevices
  {
    hide AfterTableEdit, Without, Repush, Position;
  }

  lemma {:induction false} ActivesOnDistinct(t: Table<ActiveConnection>, interfaces: seq<string>)
    requires Distinct(t)
    ensures Distinct(ActivesOn(t, interfaces)) && PathSet(ActivesOn(t, interfaces)) <= PathSet(t)
  {
    if t != [] {
      var front, last := t[..|t| - 1], t[|t| - 1];
      Unsnoc(t);
      ActivesOnDistinct(front, interfaces);
      Snoc(ActivesOn(front, interfaces), last);
    }
  }

  lemma {:induction false} AdjustKeepsSnapshots(t: Table<Checkpoint>, cp: string, now: int, addTimeout: nat)
    requires forall e :: e in t ==> Distinct(e.value.snapshot.activeConnections)
    ensures forall e :: e in AfterAdjust(t, cp, now, addTimeout) ==> Distinct(e.value.snapshot.activeConnections)
  {
    hide Distinct;
    var u := AfterAdjust(t, cp, now, addTimeout);
    forall e | e in u ensures Distinct(e.value.snapshot.activeConnections) {
      var k :| 0 <= k < |u| && u[k] == e;
      assert t[k] in t;
    }
  }

  lemma {:induction false} StoredKeepsActives(s: Sys, a: Action)
    requires ActivesDistinct(s)
    ensures forall e :: e in Step(s, a).rt.checkpoints ==> Distinct(e.value.snapshot.activeConnections)
  {
    var t := s.rt.checkpoints;
    StepTable(s, a);
    hide Step, Distinct;
    match a {
      case Win(_, gone) => WithoutMembers(t, gone);
      case Destroy(gone) => WithoutMembers(t, gone);
      case Adjust(cp, addTimeout) => AdjustKeepsSnapshots(t, cp, s.now, addTimeout);
      case Store(c) => assert CarriedDistinct(At(s, c));
      case _ =>
    }
  }

  lemma {:induction false} CarriedKeepsActives(s: Sys, a: Action, d: nat)
    requires ActivesDistinct(s)
    ensures CarriedDistinct(At(Step(s, a), d))
  {
    CarriedAfter(s, a, d);
    hide Step, Distinct;
    assert CarriedDistinct(At(s, d));
    if a.Capture? {
      ActivesOnDistinct(s.rt.activeConnections, InterfacesOf(a.deviceList));
    }
    if a.Win? && Lookup(s.rt.checkpoints, a.cp).Some? {
      assert Lookup(s.rt.checkpoints, a.cp).value in s.rt.checkpoints;
    }
  }

  lemma {:induction false} LiveKeepsActives(s: Sys, a: Action)
    requires ActivesDistinct(s)
    ensures Distinct(Step(s, a).rt.activeConnections)
  {
    ActivesAfter(s, a);
    hide Step, Distinct;
    match a {
      case PushActive(e) => RepushFacts(s.rt.activeConnections, e);
      case DropActive(path) => WithoutFacts(s.rt.activeConnections, path);
      case RestoreState(c) => assert CarriedDistinct(At(s, c));
      case _ =>
    }
  }

  lemma {:induction false} StepKeepsActives(s: Sys, a: Action)
    requires ActivesDistinct(s)
    ensures ActivesDistinct(Step(s, a))
  {
    LiveKeepsActives(s, a);
    StoredKeepsActives(s, a);
    forall d: nat ensures CarriedDistinct(At(Step(s, a), d)) {
      CarriedKeepsActives(s, a, d);
    }
    hide Step, Distinct, CarriedDistinct;
  }

  lemma {:induction false} StepKeepsOthers(s: Sys, a: Action)
    requires OthersDistinct(s)
    ensures OthersDistinct(Step(s, a))
  {
    OthersAfter(s, a);
    hide Step, Distinct;
    if a.EditTables? {
      match a.edit
      case PutAccessPoint(e) => UpsertFacts(s.rt.accessPoints, e);
      case DropAccessPoint(path) => WithoutFacts(s.rt.accessPoints, path);
      case PutDevice(e) => UpsertFacts(s.rt.devices, e);
      case DropDevice(path) => WithoutFacts(s.rt.devices, path);
      case PutWireless(e) => UpsertFacts(s.rt.wirelessDevices, e);
      case DropWireless(name) => WithoutFacts(s.rt.wirelessDevices, name);
    }
  }

  lemma {:induction false} RunKeepsTables(s: Sys, actions: seq<Action>)
    requires ActivesDistinct(s) && OthersDistinct(s)
    ensures ActivesDistinct(Run(s, actions)) && OthersDistinct(Run(s, actions))
  {
    hide ActivesDistinct, OthersDistinct, Step;
    if actions != [] {
      RunKeepsTables(s, actions[..|actions| - 1]);
      StepKeepsActives(Run(s, actions[..|actions| - 1]), actions[|actions| - 1]);
      StepKeepsOthers(Run(s, actions[..|actions| - 1]), actions[|actions| - 1]);
    }
  }

  lemma {:induction false} InitialTables(s: Sys)
    requires Initial(s)
    ensures ActivesDistinct(s) && OthersDistinct(s)
  {
  }

  /** Under every interleaving all five tables keep distinct paths and the next settings path is
      fresh, and so do the active connections of every snapshot, stored or carried. */
  lemma {:induction false} ReadyUnderInterleaving(s: Sys, actions: seq<Action>)
    requires Initial(s)
    ensures Ready(Run(s, actions).rt) && ActivesDistinct(Run(s, actions))
  {
    InitialTables(s);
    InitialPathsInv(s);
    RunKeepsTables(s, actions);
    RunKeepsPathsInv(s, actions);
    var r := Run(s, actions);
    assert Held(r, r.rt.connections);
    hide Initial, Distinct, IssuedBelow, Run;
  }

  /** So from every reachable state a sync announces exactly what it changes, and a second sync
      against the same backends changes and announces nothing. */
  lemma {:induction false} SyncFromAnyState(s: Sys, actions: seq<Action>, env: Env, links: seq<Link>, iwd: Iwd)
    requires Initial(s) && DistinctNames(links)
    ensures var r := Run(s, actions).rt;
            var once := AfterSync(env, r, links, iwd);
            var twice := AfterSync(env, once.state, links, iwd);
            && Exact(View(r), once.log, View(once.state))
            && twice.log == [] && twice.state == once.state.(versionId := twice.state.versionId)
  {
    ReadyUnderInterleaving(s, actions);
    hide Initial, Ready, Run;
    SyncAnnouncesTheDifference(env, Run(s, actions).rt, links, iwd);
    SyncTwice(env, Run(s, actions).rt, links, iwd);
  }
}
