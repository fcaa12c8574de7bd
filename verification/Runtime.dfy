/** The shared runtime: one object whose methods each run under the mutex. */
module RuntimeStore {
  import opened Text
  import opened ObjectPaths
  import opened Tables
  import opened RuntimeState

  class Runtime {
    var activeConnections: Table<ActiveConnection>
    var accessPoints: Table<AccessPoint>
    var checkpoints: Table<Checkpoint>
    var connections: Table<Connection>
    var devices: Table<Device>
    var wirelessDevices: Table<WirelessDevice>
    var deviceManaged: map<string, bool>
    var hostname: string
    var networkingEnabled: bool
    var sleeping: bool
    var nextSettingsId: nat
    var nextCheckpointId: nat
    var versionId: nat

    /** The whole state as a value. */
    ghost function Contents(): State
      reads this
    {
      State(activeConnections, accessPoints, checkpoints, connections, devices, wirelessDevices,
                  deviceManaged, hostname, networkingEnabled, sleeping,
                  nextSettingsId, nextCheckpointId, versionId)
    }

    constructor (initial: Table<Connection>)
      ensures Contents() == InitialState(initial)
      ensures connections == initial && activeConnections == [] && accessPoints == [] && checkpoints == []
      ensures devices == [] && wirelessDevices == [] && deviceManaged == map[] && hostname == ""
      ensures networkingEnabled && !sleeping && nextCheckpointId == 1 && versionId == 1
    {
      hide FirstFreeId;
      var next := LargestSettingsId(initial);
      activeConnections, accessPoints, checkpoints := [], [], [];
      connections, devices, wirelessDevices := initial, [], [];
      deviceManaged, hostname := map[], "";
      networkingEnabled, sleeping := true, false;
      nextCheckpointId, versionId := 1, 1;
      nextSettingsId := next + 1;
    }

    // ------------------------------------------------------------- connections

    method NextConnectionPath() returns (path: string)
      modifies this
      ensures path == SettingsPath(old(nextSettingsId))
      ensures Contents() == AfterNextConnectionPath(old(Contents()))
    {
      path := SettingsPath(nextSettingsId);
      nextSettingsId := nextSettingsId + 1;
    }

    method AddConnection(record: Entry<Connection>)
      modifies this
      ensures Contents() == AfterAddConnection(old(Contents()), record)
    {
      connections := connections + [record];
      versionId := versionId + 1;
    }

    method UpdateConnection(path: string, update: Connection -> Connection) returns (found: bool)
      modifies this
      ensures found == Lookup(old(connections), path).Some?
      ensures Contents() == if found then
                           AfterUpdateConnection(old(Contents()), path,
                                                 update(Lookup(old(connections), path).value.value))
                         else old(Contents())
    {
      var i := Position(connections, path);
      found := i < |connections|;
      if found {
        connections := connections[i := Entry(path, update(connections[i].value))];
        versionId := versionId + 1;
      }
    }

    method RemoveConnection(path: string) returns (removed: Option<Entry<Connection>>)
      modifies this
      ensures removed == Lookup(old(connections), path)
      ensures Contents() == AfterRemoveConnection(old(Contents()), path)
    {
      var i := Position(connections, path);
      if i == |connections| {
        return None;
      }
      versionId := versionId + 1;
      removed := Some(connections[i]);
      connections := connections[..i] + connections[i + 1..];
    }

    // --------------------------------------------------- upserted and pruned tables

    method UpsertAccessPoint(record: Entry<AccessPoint>)
      modifies this
      ensures Contents() == old(Contents()).(accessPoints := Upsert(old(accessPoints), record))
    {
      var i := Position(accessPoints, record.path);
      if i < |accessPoints| {
        accessPoints := accessPoints[i := record];
      } else {
        accessPoints := accessPoints + [record];
      }
    }

    method RemoveAccessPoint(path: string)
      modifies this
      ensures Contents() == old(Contents()).(accessPoints := Without(old(accessPoints), path))
    {
      var i := Position(accessPoints, path);
      if i < |accessPoints| {
        accessPoints := accessPoints[..i] + accessPoints[i + 1..];
      }
    }

    method UpsertDevice(record: Entry<Device>)
      modifies this
      ensures Contents() == old(Contents()).(devices := Upsert(old(devices), record))
    {
      var i := Position(devices, record.path);
      if i < |devices| {
        devices := devices[i := record];
      } else {
        devices := devices + [record];
      }
    }

    method RemoveDevice(path: string) returns (removed: Option<Entry<Device>>)
      modifies this
      ensures removed == Lookup(old(devices), path)
      ensures Contents() == old(Contents()).(devices := Without(old(devices), path))
    {
      var i := Position(devices, path);
      if i == |devices| {
        return None;
      }
      removed := Some(devices[i]);
      devices := devices[..i] + devices[i + 1..];
    }

    method UpsertWirelessDevice(record: Entry<WirelessDevice>)
      modifies this
      ensures Contents() == old(Contents()).(wirelessDevices := Upsert(old(wirelessDevices), record))
    {
      var i := Position(wirelessDevices, record.path);
      if i < |wirelessDevices| {
        wirelessDevices := wirelessDevices[i := record];
      } else {
        wirelessDevices := wirelessDevices + [record];
      }
    }

    method RemoveWirelessDevice(interfaceName: string)
      modifies this
      ensures Contents() == old(Contents()).(wirelessDevices := Without(old(wirelessDevices), interfaceName))
    {
      var i := Position(wirelessDevices, interfaceName);
      if i < |wirelessDevices| {
        wirelessDevices := wirelessDevices[..i] + wirelessDevices[i + 1..];
      }
    }

    method AddActiveConnection(record: Entry<ActiveConnection>)
      modifies this
      ensures Contents() == old(Contents()).(activeConnections := Repush(old(activeConnections), record))
    {
      activeConnections := Except(activeConnections, {record.path});
      activeConnections := activeConnections + [record];
    }

    method RemoveActiveConnection(path: string) returns (removed: Option<Entry<ActiveConnection>>)
      modifies this
      ensures removed == Lookup(old(activeConnections), path)
      ensures Contents() == old(Contents()).(activeConnections := Without(old(activeConnections), path))
    {
      var i := Position(activeConnections, path);
      if i == |activeConnections| {
        return None;
      }
      removed := Some(activeConnections[i]);
      activeConnections := activeConnections[..i] + activeConnections[i + 1..];
    }

    // -------------------------------------------------------------- checkpoints

    method NextCheckpointPath() returns (path: string)
      modifies this
      ensures path == CheckpointPath(old(nextCheckpointId))
      ensures Contents() == old(Contents()).(nextCheckpointId := old(nextCheckpointId) + 1)
    {
      path := CheckpointPath(nextCheckpointId);
      nextCheckpointId := nextCheckpointId + 1;
    }

    method CheckpointSnapshot(deviceList: seq<string>) returns (snapshot: Snapshot)
      ensures snapshot == Slice(Contents(), deviceList)
    {
      var interfaces := [];
      for i := 0 to |deviceList|
        invariant interfaces == InterfacesOf(deviceList[..i])
      {
        interfaces := interfaces + [LastSegment(deviceList[i])];
      }
      assert deviceList[..|deviceList|] == deviceList;
      var actives: Table<ActiveConnection> := [];
      for i := 0 to |activeConnections|
        invariant actives == ActivesOn(activeConnections[..i], interfaces)
      {
        assert activeConnections[..i + 1][..i] == activeConnections[..i];
        if ActiveOn(activeConnections[i].value, interfaces) {
          actives := actives + [activeConnections[i]];
        }
      }
      assert activeConnections[..|activeConnections|] == activeConnections;
      var captured: Table<Connection> := [];
      for i := 0 to |connections|
        invariant captured == ConnectionsOn(connections[..i], interfaces)
      {
        assert connections[..i + 1][..i] == connections[..i];
        if ConnectionOn(connections[i].value, interfaces) {
          captured := captured + [connections[i]];
        }
      }
      assert connections[..|connections|] == connections;
      var managed := map k | k in deviceManaged && k in interfaces :: deviceManaged[k];
      snapshot := Snapshot(actives, captured, managed, hostname, networkingEnabled, [], sleeping);
    }

    method AddCheckpoint(record: Entry<Checkpoint>)
      modifies this
      ensures Contents() == old(Contents()).(checkpoints := old(checkpoints) + [record])
    {
      checkpoints := checkpoints + [record];
    }

    method RemoveCheckpoint(path: string) returns (removed: Option<Entry<Checkpoint>>)
      modifies this
      ensures removed == Lookup(old(checkpoints), path)
      ensures Contents() == old(Contents()).(checkpoints := Without(old(checkpoints), path))
    {
      var i := Position(checkpoints, path);
      if i == |checkpoints| {
        return None;
      }
      removed := Some(checkpoints[i]);
      checkpoints := checkpoints[..i] + checkpoints[i + 1..];
    }

    method AdjustCheckpoint(path: string, now: int, addTimeout: nat) returns (found: bool)
      modifies this
      ensures found == Lookup(old(checkpoints), path).Some?
      ensures Contents() == old(Contents()).(checkpoints := AfterAdjust(old(checkpoints), path, now, addTimeout))
    {
      var i := Position(checkpoints, path);
      found := i < |checkpoints|;
      if found {
        var record := checkpoints[i].value;
        var baseline := match record.deadline case Some(d) => Max(d, now) case None => now;
        var extended := SaturatingAdd(baseline, addTimeout * 1000);
        record := record.(deadline := Some(extended));
        record := record.(rollbackTimeout := SecondsLeft(extended, now));
        checkpoints := checkpoints[i := Entry(path, record)];
      }
    }

    method CheckpointRollbackTimeout(path: string, now: int) returns (timeout: Option<nat>)
      ensures timeout == match Lookup(checkpoints, path)
                         case Some(e) => Some(RollbackTimeout(e.value, now))
                         case None => None
      ensures timeout.Some? && Lookup(checkpoints, path).value.value.deadline.None? ==>
                timeout.value == Lookup(checkpoints, path).value.value.rollbackTimeout
    {
      var i := Position(checkpoints, path);
      if i == |checkpoints| {
        return None;
      }
      timeout := Some(RollbackTimeout(checkpoints[i].value, now));
    }

    method RestoreCheckpointSnapshot(snapshot: Snapshot)
      modifies this
      ensures connections == snapshot.connections && activeConnections == snapshot.activeConnections
      ensures deviceManaged == snapshot.deviceManaged && hostname == snapshot.hostname
      ensures networkingEnabled == snapshot.networkingEnabled && sleeping == snapshot.sleeping
      ensures versionId == old(versionId) + 1
      ensures Contents() == AfterRestore(old(Contents()), snapshot)
    {
      connections := snapshot.connections;
      activeConnections := snapshot.activeConnections;
      deviceManaged := snapshot.deviceManaged;
      hostname := snapshot.hostname;
      networkingEnabled := snapshot.networkingEnabled;
      sleeping := snapshot.sleeping;
      versionId := versionId + 1;
    }

    // -------------------------------------------------------------------- flags

    method SetHostname(name: string)
      modifies this
      ensures Contents() == old(Contents()).(hostname := name, versionId := old(versionId) + 1)
    {
      hostname := name;
      versionId := versionId + 1;
    }

    method SetDeviceManaged(interfaceName: string, managed: bool)
      modifies this
      ensures Contents() == old(Contents()).(deviceManaged := old(deviceManaged)[interfaceName := managed])
    {
      deviceManaged := deviceManaged[interfaceName := managed];
    }

    method SetNetworkingEnabled(enabled: bool)
      modifies this
      ensures Contents() == old(Contents()).(networkingEnabled := enabled)
    {
      networkingEnabled := enabled;
    }

    method SetSleeping(asleep: bool)
      modifies this
      ensures Contents() == old(Contents()).(sleeping := asleep)
    {
      sleeping := asleep;
    }
  }

  /** The largest number that ends a path of the table, or zero. */
  method LargestSettingsId(initial: Table<Connection>) returns (next: nat)
    ensures next + 1 == FirstFreeId(initial)
  {
    hide ParseUsize, LastSegment;
    next := 0;
    for i := 0 to |initial|
      invariant next + 1 == FirstFreeId(initial[..i])
    {
      assert initial[..i + 1][..i] == initial[..i];
      var parsed := ParseUsize(LastSegment(initial[i].path));
      if parsed.Some? && parsed.value > next {
        next := parsed.value;
      }
    }
    assert initial[..|initial|] == initial;
  }

  function AfterAdjust(t: Table<Checkpoint>, path: string, now: int, addTimeout: nat): Table<Checkpoint> {
    var i := Position(t, path);
    if i < |t| then t[i := Entry(path, Adjusted(t[i].value, now, addTimeout))] else t
  }
}
