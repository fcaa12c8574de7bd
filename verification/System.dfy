/** The service as a state machine. Every action is one step under the mutex, one access to
    the profile directories, or one tick of the clock; what a caller carries from one of its
    steps to the next is local state. A run is any interleaving of actions. */
module System {
  import opened Text
  import opened ObjectPaths
  import opened Tables
  import opened RuntimeState
  import opened RuntimeStore

  // -------------------------------------------------------------------- callers

  datatype Caller =
    | Idle
    | Allocated(path: string)                                   // has a settings path, not inserted yet
    | Named(cp: string, created: int)                           // has a checkpoint path
    | Captured(cp: string, created: int, devices: seq<string>, timeout: nat, snapshot: Snapshot)
    | Filed(cp: string, record: Checkpoint)                     // has the files too, not stored yet
    | Starting(cp: string)                                      // stored it, its timer is not started yet
    | Watching(cp: string)                                      // the timer of a checkpoint, asleep
    | Fired(cp: string)                                         // the timer saw the timeout at zero
    | Won(cp: string, record: Checkpoint)                       // took the record off the table
    | FilesBack(cp: string, record: Checkpoint)                 // has put the files back

  /** What happened so far; no step reads it. */
  datatype History = History(
    issued: seq<string>,
    captured: map<string, Snapshot>,
    filesSeen: map<string, map<string, seq<byte>>>,
    restored: seq<string>,
    destroyed: set<string>)

  /** `files` holds the profile directories. */
  datatype Sys = Sys(
    rt: State,
    files: map<string, seq<byte>>,
    callers: map<nat, Caller>,
    now: nat,
    hist: History)

  function At(s: Sys, c: nat): Caller {
    if c in s.callers then s.callers[c] else Idle
  }

  function Put(s: Sys, c: nat, caller: Caller): Sys {
    s.(callers := s.callers[c := caller])
  }

  // -------------------------------------------------------------------- actions

  /** What a sync writes into the tables of access points, devices and wireless devices. */
  datatype TableEdit =
    | PutAccessPoint(accessPoint: Entry<AccessPoint>)
    | DropAccessPoint(path: string)
    | PutDevice(device: Entry<Device>)
    | DropDevice(path: string)
    | PutWireless(wireless: Entry<WirelessDevice>)
    | DropWireless(interfaceName: string)

  function AfterTableEdit(s: State, edit: TableEdit): State {
    match edit
    case PutAccessPoint(e) => s.(accessPoints := Upsert(s.accessPoints, e))
    case DropAccessPoint(path) => s.(accessPoints := Without(s.accessPoints, path))
    case PutDevice(e) => s.(devices := Upsert(s.devices, e))
    case DropDevice(path) => s.(devices := Without(s.devices, path))
    case PutWireless(e) => s.(wirelessDevices := Upsert(s.wirelessDevices, e))
    case DropWireless(interfaceName) => s.(wirelessDevices := Without(s.wirelessDevices, interfaceName))
  }

  datatype Action =
    // settings connections
    | NextPath(c: nat)
    | Insert(c: nat, value: Connection)
    | Update(path: string, value: Connection)
    | Remove(path: string)
    // everything else a client or a sync writes
    | SetHost(name: string)
    | SetManaged(interfaceName: string, managed: bool)
    | SetNetworking(enabled: bool)
    | SetAsleep(asleep: bool)
    | PushActive(entry: Entry<ActiveConnection>)
    | DropActive(path: string)
    | EditTables(edit: TableEdit)
    | WriteFile(path: string, contents: seq<byte>)
    | DeleteFile(path: string)
    // checkpoints
    | NameCheckpoint(c: nat)
    | Capture(c: nat, deviceList: seq<string>, timeout: nat)
    | CaptureFiles(c: nat, listing: Files)
    | Store(c: nat)
    | Start(c: nat)
    | Adjust(cp: string, addTimeout: nat)
    | Destroy(cp: string)
    | Tick(c: nat)
    | Win(c: nat, cp: string)
    | RestoreFiles(c: nat)
    | RestoreState(c: nat)
    // a caller whose awaited operation failed, and the clock
    | GiveUp(c: nat)
    | Pass(millis: nat)

  /** A checkpoint is won by a manual rollback, or by the timer that fired for it. */
  predicate MayWin(caller: Caller, cp: string) {
    caller == Idle || caller == Fired(cp)
  }

  function StepWin(s: Sys, c: nat, cp: string): Sys {
    match Lookup(s.rt.checkpoints, cp)
    case None => Put(s, c, Idle)
    case Some(e) => Put(s.(rt := s.rt.(checkpoints := Without(s.rt.checkpoints, cp))), c, Won(cp, e.value))
  }

  function StepTick(s: Sys, c: nat, cp: string): Sys {
    match Lookup(s.rt.checkpoints, cp)
    case None => Put(s, c, Idle)
    case Some(e) => if RollbackTimeout(e.value, s.now) == 0 then Put(s, c, Fired(cp)) else s
  }

  function StepDestroy(s: Sys, cp: string): Sys {
    if Lookup(s.rt.checkpoints, cp).None? then s
    else s.(rt := s.rt.(checkpoints := Without(s.rt.checkpoints, cp)),
            hist := s.hist.(destroyed := s.hist.destroyed + {cp}))
  }

  /** What stored a checkpoint with a timeout goes on to register the object and start the timer; a
      registration that fails gives up before that. */
  function StepStore(s: Sys, c: nat, cp: string, record: Checkpoint): Sys {
    Put(s.(rt := s.rt.(checkpoints := s.rt.checkpoints + [Entry(cp, record)])), c,
        if record.deadline.Some? then Starting(cp) else Idle)
  }

  function StepCapture(s: Sys, c: nat, caller: Caller, deviceList: seq<string>, timeout: nat): Sys
    requires caller.Named?
  {
    var snapshot := Slice(s.rt, deviceList);
    Put(s.(hist := s.hist.(captured := s.hist.captured[caller.cp := snapshot])), c,
        Captured(caller.cp, caller.created, deviceList, timeout, snapshot))
  }

  function StepCaptureFiles(s: Sys, c: nat, caller: Caller, listing: Files): Sys
    requires caller.Captured?
  {
    var snapshot := caller.snapshot.(persistedFiles := listing);
    Put(s.(hist := s.hist.(filesSeen := s.hist.filesSeen[caller.cp := s.files])), c,
        Filed(caller.cp, NewCheckpoint(caller.created, caller.devices, caller.timeout, snapshot)))
  }

  /** The actions that are always possible and concern no caller and no checkpoint. */
  function StepPassive(s: Sys, a: Action): Sys {
    match a
    case Update(path, value) => s.(rt := AfterUpdateConnection(s.rt, path, value))
    case Remove(path) => s.(rt := AfterRemoveConnection(s.rt, path))
    case SetHost(name) => s.(rt := s.rt.(hostname := name, versionId := s.rt.versionId + 1))
    case SetManaged(i, managed) => s.(rt := s.rt.(deviceManaged := s.rt.deviceManaged[i := managed]))
    case SetNetworking(enabled) => s.(rt := s.rt.(networkingEnabled := enabled))
    case SetAsleep(asleep) => s.(rt := s.rt.(sleeping := asleep))
    case PushActive(e) => s.(rt := s.rt.(activeConnections := Repush(s.rt.activeConnections, e)))
    case DropActive(path) => s.(rt := s.rt.(activeConnections := Without(s.rt.activeConnections, path)))
    case EditTables(edit) => s.(rt := AfterTableEdit(s.rt, edit))
    case WriteFile(path, contents) => s.(files := s.files[path := contents])
    case DeleteFile(path) => s.(files := s.files - {path})
    case Pass(millis) => s.(now := s.now + millis)
    case _ => s
  }

  /** One action; an action that is not possible leaves everything as it is. */
  function Step(s: Sys, a: Action): Sys {
    match a
    case NextPath(c) =>
      if At(s, c) != Idle then s
      else
        var path := SettingsPath(s.rt.nextSettingsId);
        Put(s.(rt := AfterNextConnectionPath(s.rt), hist := s.hist.(issued := s.hist.issued + [path])), c,
            Allocated(path))
    case Insert(c, value) =>
      if !At(s, c).Allocated? then s
      else Put(s.(rt := AfterAddConnection(s.rt, Entry(At(s, c).path, value))), c, Idle)
    case NameCheckpoint(c) =>
      if At(s, c) != Idle then s
      else Put(s.(rt := s.rt.(nextCheckpointId := s.rt.nextCheckpointId + 1)), c,
               Named(CheckpointPath(s.rt.nextCheckpointId), s.now))
    case Capture(c, deviceList, timeout) =>
      if At(s, c).Named? then StepCapture(s, c, At(s, c), deviceList, timeout) else s
    case CaptureFiles(c, listing) =>
      if At(s, c).Captured? && FilesOf(listing) == s.files then StepCaptureFiles(s, c, At(s, c), listing) else s
    case Store(c) => if At(s, c).Filed? then StepStore(s, c, At(s, c).cp, At(s, c).record) else s
    case Start(c) => if At(s, c).Starting? then Put(s, c, Watching(At(s, c).cp)) else s
    case Adjust(cp, addTimeout) =>
      s.(rt := s.rt.(checkpoints := AfterAdjust(s.rt.checkpoints, cp, s.now, addTimeout)))
    case Destroy(cp) => StepDestroy(s, cp)
    case Tick(c) => if At(s, c).Watching? then StepTick(s, c, At(s, c).cp) else s
    case Win(c, cp) => if MayWin(At(s, c), cp) then StepWin(s, c, cp) else s
    case RestoreFiles(c) =>
      if At(s, c).Won?
      then Put(s.(files := FilesOf(At(s, c).record.snapshot.persistedFiles)), c,
               FilesBack(At(s, c).cp, At(s, c).record))
      else s
    case RestoreState(c) =>
      if At(s, c).FilesBack?
      then Put(s.(rt := AfterRestore(s.rt, At(s, c).record.snapshot),
                  hist := s.hist.(restored := s.hist.restored + [At(s, c).cp])), c, Idle)
      else s
    case GiveUp(c) => if At(s, c).Watching? || At(s, c).Fired? then s else Put(s, c, Idle)
    case _ => StepPassive(s, a)
  }

  function Run(s: Sys, actions: seq<Action>): Sys {
    if actions == [] then s else Step(Run(s, actions[..|actions| - 1]), actions[|actions| - 1])
  }

  /** The service as it starts: any distinct initial connections, no callers yet. */
  ghost predicate Initial(s: Sys) {
    && Distinct(s.rt.connections)
    && s.rt == InitialState(s.rt.connections)
    && s.callers == map[]
    && s.hist == History([], map[], map[], [], {})
  }

  lemma {:induction false} RunAppend(s: Sys, first: seq<Action>, second: seq<Action>)
    ensures Run(s, first + second) == Run(Run(s, first), second)
  {
    if second == [] {
      assert first + second == first;
    } else {
      assert (first + second)[..|first + second| - 1] == first + second[..|second| - 1];
      RunAppend(s, first, second[..|second| - 1]);
    }
  }
}
