/** Creating, destroying and adjusting a checkpoint in one go, and how the interleaved model
    takes the same operations apart. */
module Checkpoints {
  import opened Text
  import opened ObjectPaths
  import opened Tables
  import opened RuntimeState
  import opened RuntimeStore
  import opened ProfileDirectory
  import opened System
  import opened SystemTimers
  import opened SystemTime
  import opened SystemRuns

  /** An empty list of devices stands for all devices. */
  function DeviceList(s: State, devices: seq<string>): seq<string> {
    if devices == [] then Paths(s.devices) else devices
  }

  function Stored(s: State, path: string, record: Checkpoint): State {
    s.(nextCheckpointId := s.nextCheckpointId + 1, checkpoints := s.checkpoints + [Entry(path, record)])
  }

  /** `readable` tells whether the profile files can be read: without that the path is spent and nothing
      is stored. `served` tells whether the new object can be registered and announced: without that the
      record stays stored and no timer starts. The caller gets an error either way. */
  method CheckpointCreate(rt: Runtime, dir: Directory, readable: bool, served: bool, devices: seq<string>,
                          rollbackTimeout: nat, now: int)
    returns (r: Result<string>, timer: bool, ghost listing: Files)
    modifies rt
    ensures if readable && served then r == Ok(CheckpointPath(old(rt.nextCheckpointId))) else r.Err?
    ensures timer <==> readable && served && rollbackTimeout > 0
    ensures FilesOf(listing) == dir.files
    ensures var s := old(rt.Contents());
            var deviceList := DeviceList(s, devices);
            var snapshot := Slice(s, deviceList).(persistedFiles := listing);
            rt.Contents() == if !readable then s.(nextCheckpointId := s.nextCheckpointId + 1)
                             else Stored(s, CheckpointPath(s.nextCheckpointId),
                                         NewCheckpoint(now, deviceList, rollbackTimeout, snapshot))
    ensures readable ==>
              && |rt.checkpoints| == |old(rt.checkpoints)| + 1
              && var record := rt.checkpoints[|old(rt.checkpoints)|].value;
                 && record.created == now && record.rollbackTimeout == rollbackTimeout
                 && record.devices == (if devices == [] then Paths(old(rt.devices)) else devices)
                 && (rollbackTimeout == 0 ==> record.deadline == None)
                 && (rollbackTimeout > 0 ==> record.deadline == Some(Min(now + 1000 * rollbackTimeout, I64_MAX)))
                 && record.snapshot.persistedFiles == listing
                 && record.snapshot.hostname == old(rt.hostname)
                 && record.snapshot.networkingEnabled == old(rt.networkingEnabled)
                 && record.snapshot.sleeping == old(rt.sleeping)
  {
    hide FilesOf, Slice, CheckpointPath;
    var deviceList := if devices == [] then Paths(rt.devices) else devices;
    var path := rt.NextCheckpointPath();
    SliceIgnoresCounter(old(rt.Contents()), deviceList);
    SliceKeepsSwitches(old(rt.Contents()), deviceList);
    var snapshot := rt.CheckpointSnapshot(deviceList);
    var files := dir.SnapshotConnectionFiles();
    listing := files;
    if !readable {
      return Err("the files cannot be read"), false, listing;
    }
    snapshot := snapshot.(persistedFiles := files);
    rt.AddCheckpoint(Entry(path, NewCheckpoint(now, deviceList, rollbackTimeout, snapshot)));
    if !served {
      return Err("the object cannot be served"), false, listing;
    }
    r, timer := Ok(path), rollbackTimeout > 0;
  }

  lemma {:induction false} SliceIgnoresCounter(s: State, devices: seq<string>)
    ensures Slice(s.(nextCheckpointId := s.nextCheckpointId + 1), devices) == Slice(s, devices)
  {
  }

  lemma {:induction false} SliceKeepsSwitches(s: State, devices: seq<string>)
    ensures var snapshot := Slice(s, devices);
            && snapshot.hostname == s.hostname && snapshot.networkingEnabled == s.networkingEnabled
            && snapshot.sleeping == s.sleeping
  {
  }

  method CheckpointDestroy(rt: Runtime, path: string) returns (ok: bool)
    modifies rt
    ensures ok <==> Lookup(old(rt.checkpoints), path).Some?
    ensures rt.Contents() == old(rt.Contents()).(checkpoints := Without(old(rt.checkpoints), path))
  {
    var removed := rt.RemoveCheckpoint(path);
    ok := removed.Some?;
  }

  /** The timer's loop body: end, roll back, or sleep on. */
  datatype Verdict = Gone | RollBack | SleepOn

  predicate TimedOut(found: Option<Entry<Checkpoint>>, now: int) {
    found.Some? && RollbackTimeout(found.value.value, now) == 0
  }

  method CheckTimeout(rt: Runtime, path: string, now: int) returns (verdict: Verdict)
    ensures verdict == Gone <==> Lookup(rt.checkpoints, path).None?
    ensures verdict == RollBack <==> TimedOut(Lookup(rt.checkpoints, path), now)
    ensures var found := Lookup(rt.checkpoints, path);
            found.Some? && found.value.value.deadline.Some? && 0 <= now && found.value.value.deadline.value <= I64_MAX
            ==> (verdict == RollBack <==> found.value.value.deadline.value <= now)
  {
    var found := Lookup(rt.checkpoints, path);
    if found.Some? && found.value.value.deadline.Some? && 0 <= now && found.value.value.deadline.value <= I64_MAX {
      TimeoutZeroWhenPassed(found.value.value, now);
    }
    var timeout := rt.CheckpointRollbackTimeout(path, now);
    verdict := match timeout case None => Gone case Some(0) => RollBack case Some(_) => SleepOn;
  }

  // --------------------------------------------------- the interleaved model agrees

  /** The four steps of a creation, taken without anything in between, store what
      `CheckpointCreate` stores. */
  lemma {:induction false} CreateInFourSteps(s: Sys, c: nat, deviceList: seq<string>, timeout: nat, listing: Files)
    requires At(s, c) == Idle && FilesOf(listing) == s.files
    ensures var path := CheckpointPath(s.rt.nextCheckpointId);
            var snapshot := Slice(s.rt, deviceList).(persistedFiles := listing);
            var after := Step(Step(Step(Step(s, NameCheckpoint(c)), Capture(c, deviceList, timeout)),
                                   CaptureFiles(c, listing)), Action.Store(c));
            && after.rt == Stored(s.rt, path, NewCheckpoint(s.now, deviceList, timeout, snapshot))
            && after.files == s.files
  {
    hide FilesOf, Slice, CheckpointPath, NewCheckpoint;
    var path := CheckpointPath(s.rt.nextCheckpointId);
    var named := Step(s, NameCheckpoint(c));
    assert At(named, c) == Named(path, s.now) && named.files == s.files && named.now == s.now;
    SliceIgnoresCounter(s.rt, deviceList);
    var captured := Step(named, Action.Capture(c, deviceList, timeout));
    assert captured == StepCapture(named, c, At(named, c), deviceList, timeout);
    assert captured.rt == named.rt && captured.files == s.files;
    assert At(captured, c) == Captured(path, s.now, deviceList, timeout, Slice(s.rt, deviceList));
    StoreInTwoSteps(captured, c, listing);
  }

  /** A checkpoint without a timeout is made, adjusted and never rolled back by itself, whatever follows:
      it has a deadline and nothing watches it. */
  lemma {:induction false} UntimedCheckpoint(s: Sys, c: nat, deviceList: seq<string>, listing: Files, addTimeout: nat,
                                             between: seq<Action>)
    requires Initial(s) && FilesOf(listing) == s.files
    ensures var made := [NameCheckpoint(c), Action.Capture(c, deviceList, 0), Action.CaptureFiles(c, listing),
                         Action.Store(c)];
            var path := CheckpointPath(s.rt.nextCheckpointId);
            var adjusted := Step(Run(s, made), Adjust(path, addTimeout));
            var found := Lookup(adjusted.rt.checkpoints, path);
            && found.Some? && found.value.value.deadline.Some?
            && Unattended(Run(adjusted, between), path)
  {
    var made := [NameCheckpoint(c), Action.Capture(c, deviceList, 0), Action.CaptureFiles(c, listing),
                 Action.Store(c)];
    FourActions(s, made[0], made[1], made[2], made[3]);
    CreateInFourSteps(s, c, deviceList, 0, listing);
    var path := CheckpointPath(s.rt.nextCheckpointId);
    var record := NewCheckpoint(s.now, deviceList, 0, Slice(s.rt, deviceList).(persistedFiles := listing));
    assert s.rt.checkpoints == [] && [Entry(path, record)][0] == Entry(path, record);
    assert Run(s, made).rt.checkpoints == [Entry(path, record)];
    hide FilesOf, Slice, CheckpointPath, Step, Run;
    AdjustStartsNoTimer(s, made, path, addTimeout, between);
  }

  lemma {:induction false} StoreInTwoSteps(s: Sys, c: nat, listing: Files)
    requires At(s, c).Captured? && FilesOf(listing) == s.files
    ensures var k := At(s, c);
            var record := NewCheckpoint(k.created, k.devices, k.timeout, k.snapshot.(persistedFiles := listing));
            var after := Step(Step(s, CaptureFiles(c, listing)), Action.Store(c));
            after.rt == s.rt.(checkpoints := s.rt.checkpoints + [Entry(k.cp, record)]) && after.files == s.files
  {
    hide FilesOf, NewCheckpoint;
    var filed := Step(s, CaptureFiles(c, listing));
    assert filed == StepCaptureFiles(s, c, At(s, c), listing);
    assert Step(filed, Action.Store(c)) == StepStore(filed, c, At(filed, c).cp, At(filed, c).record);
  }

  /** The three steps of a rollback, taken without anything in between, leave the runtime and the
      files as `RollbackCheckpoint` does when no file operation fails. */
  lemma {:induction false} RollBackInThreeSteps(s: Sys, c: nat, path: string)
    requires At(s, c) == Idle && Lookup(s.rt.checkpoints, path).Some?
    ensures var snapshot := Lookup(s.rt.checkpoints, path).value.value.snapshot;
            var after := Step(Step(Step(s, Win(c, path)), RestoreFiles(c)), RestoreState(c));
            && after.rt == AfterRestore(s.rt.(checkpoints := Without(s.rt.checkpoints, path)), snapshot)
            && after.files == FilesOf(snapshot.persistedFiles)
  {
    hide FilesOf, Without, Lookup, AfterRestore;
    var record := Lookup(s.rt.checkpoints, path).value.value;
    var won := Step(s, Win(c, path));
    assert won == StepWin(s, c, path);
    assert At(won, c) == Won(path, record);
    RestoreInTwoSteps(won, c, path, record);
  }

  lemma {:induction false} RestoreInTwoSteps(s: Sys, c: nat, path: string, record: Checkpoint)
    requires At(s, c) == Won(path, record)
    ensures var after := Step(Step(s, RestoreFiles(c)), RestoreState(c));
            after.rt == AfterRestore(s.rt, record.snapshot) && after.files == FilesOf(record.snapshot.persistedFiles)
  {
    hide FilesOf, AfterRestore;
    var back := Step(s, RestoreFiles(c));
    assert At(back, c) == FilesBack(path, record) && back.rt == s.rt;
  }
}
