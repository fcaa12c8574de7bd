/** The records behind the service and the state that one mutex guards. */
module RuntimeState {
  import opened Text
  import opened ObjectPaths
  import opened Tables

  // ------------------------------------------------------------------ records

  /** A D-Bus variant in a settings dictionary, as far as the program looks into it. */
  datatype Value = Text(text: string) | Flag(flag: bool) | Bytes(bytes: seq<byte>)

  type Settings = map<string, map<string, Value>>

  function TextSetting(settings: Settings, group: string, key: string): Option<string> {
    if group in settings && key in settings[group] && settings[group][key].Text?
    then Some(settings[group][key].text) else None
  }

  datatype Origin = BackendWired | BackendWifi | User

  const WIFI := "802-11-wireless"
  const ETHERNET := "802-3-ethernet"
  const SECURITY := "802-11-wireless-security"

  datatype Connection = Connection(
    connectionType: string,
    filename: string,
    origin: Origin,
    settings: Settings,
    unsaved: bool,
    uuid: string)
  {
    function Setting(group: string, key: string): Option<string> {
      TextSetting(settings, group, key)
    }

    predicate SettingFlag(group: string, key: string) {
      group in settings && key in settings[group] && settings[group][key].Flag? && settings[group][key].flag
    }

    predicate Autoconnect() {
      SettingFlag("connection", "autoconnect")
    }

    predicate IsHidden() {
      SettingFlag(WIFI, "hidden")
    }

    function InterfaceName(): Option<string> {
      Setting("connection", "interface-name")
    }

    function Ssid(): Option<string> {
      if WIFI in settings && "ssid" in settings[WIFI] && settings[WIFI]["ssid"].Bytes?
      then FromUtf8(settings[WIFI]["ssid"].bytes) else None
    }

    function Passphrase(): Option<string> {
      Setting(SECURITY, "psk")
    }

    function Id(path: string): string {
      match Setting("connection", "id")
      case Some(id) => id
      case None => path
    }

    /** New settings also decide the uuid and the type when they name them. */
    function WithSettings(newSettings: Settings): Connection {
      var r := this.(settings := newSettings);
      r.(uuid := match r.Setting("connection", "uuid") case Some(u) => u case None => uuid,
         connectionType := match r.Setting("connection", "type") case Some(k) => k case None => connectionType)
    }
  }

  datatype ActiveConnection = ActiveConnection(
    connection: string,
    isDefault: bool,
    devices: seq<string>,
    id: string,
    connectionType: string,
    uuid: string)

  datatype AccessPoint = AccessPoint(ssid: string, hardwareAddress: string, security: string, signal: int)

  datatype LinkType = Ether | Loopback | Wlan | Ppp | OtherType(name: string)

  datatype Device = Device(
    interfaceName: string,
    ip4Config: string,
    ip6Config: string,
    dhcp4Config: string,
    dhcp6Config: string,
    isPpp: bool,
    kind: string,
    linkType: LinkType,
    p2pPeers: seq<string>,
    wifiP2p: bool)

  datatype WirelessDevice = WirelessDevice(
    accessPoints: seq<string>,
    activeAccessPoint: string,
    bitrate: nat,
    lastScan: int)

  /** Files read from the profile directories: paths with contents. */
  type Files = seq<(string, seq<byte>)>

  function FilesOf(listing: Files): map<string, seq<byte>> {
    if listing == [] then map[]
    else FilesOf(listing[..|listing| - 1])[listing[|listing| - 1].0 := listing[|listing| - 1].1]
  }

  datatype Snapshot = Snapshot(
    activeConnections: Table<ActiveConnection>,
    connections: Table<Connection>,
    deviceManaged: map<string, bool>,
    hostname: string,
    networkingEnabled: bool,
    persistedFiles: Files,
    sleeping: bool)

  datatype Checkpoint = Checkpoint(
    created: int,
    devices: seq<string>,
    rollbackTimeout: nat,
    deadline: Option<int>,
    snapshot: Snapshot)

  /** Everything behind the mutex. Wireless devices are keyed by interface name. */
  datatype State = State(
    activeConnections: Table<ActiveConnection>,
    accessPoints: Table<AccessPoint>,
    checkpoints: Table<Checkpoint>,
    connections: Table<Connection>,
    devices: Table<Device>,
    wirelessDevices: Table<WirelessDevice>,
    deviceManaged: map<string, bool>,
    hostname: string,
    networkingEnabled: bool,
    sleeping: bool,
    nextSettingsId: nat,
    nextCheckpointId: nat,
    versionId: nat)

  // ---------------------------------------------------------------- connections

  /** The first position with this uuid, or the length of the table. */
  function UuidPosition(t: Table<Connection>, uuid: string): (i: nat)
    ensures i <= |t|
    ensures i < |t| ==> t[i].value.uuid == uuid
    ensures forall j :: 0 <= j < i ==> t[j].value.uuid != uuid
  {
    if t == [] || t[0].value.uuid == uuid then 0
    else
      var i := UuidPosition(t[1..], uuid);
      assert forall j :: 1 <= j < |t| ==> t[j] == t[1..][j - 1];
      1 + i
  }

  function LookupUuid(t: Table<Connection>, uuid: string): (r: Option<Entry<Connection>>)
    ensures r.Some? ==> r.value in t && r.value.value.uuid == uuid
    ensures r.None? ==> forall e :: e in t ==> e.value.uuid != uuid
  {
    var i := UuidPosition(t, uuid);
    if i < |t| then Some(t[i]) else None
  }

  function AfterAddConnection(s: State, e: Entry<Connection>): State {
    s.(connections := s.connections + [e], versionId := s.versionId + 1)
  }

  function AfterUpdateConnection(s: State, path: string, value: Connection): State {
    var i := Position(s.connections, path);
    if i < |s.connections|
    then s.(connections := s.connections[i := Entry(path, value)], versionId := s.versionId + 1)
    else s
  }

  function AfterRemoveConnection(s: State, path: string): State {
    if Position(s.connections, path) < |s.connections|
    then s.(connections := Without(s.connections, path), versionId := s.versionId + 1)
    else s
  }

  function AfterNextConnectionPath(s: State): State {
    s.(nextSettingsId := s.nextSettingsId + 1)
  }

  /** One more than the largest number that ends a path of the table. */
  function FirstFreeId(t: Table<Connection>): nat {
    if t == [] then 1
    else
      var rest := FirstFreeId(t[..|t| - 1]);
      match ParseUsize(LastSegment(t[|t| - 1].path))
      case Some(n) => if n + 1 > rest then n + 1 else rest
      case None => rest
  }

  function InitialState(connections: Table<Connection>): State {
    State([], [], [], connections, [], [], map[], "", true, false, FirstFreeId(connections), 1, 1)
  }

  // ------------------------------------------------------------------ snapshots

  function InterfacesOf(devices: seq<string>): seq<string> {
    seq(|devices|, i requires 0 <= i < |devices| => LastSegment(devices[i]))
  }

  predicate ActiveOn(a: ActiveConnection, interfaces: seq<string>) {
    exists d :: d in a.devices && LastSegment(d) in interfaces
  }

  predicate ConnectionOn(c: Connection, interfaces: seq<string>) {
    c.InterfaceName().Some? && c.InterfaceName().value in interfaces
  }

  function ActivesOn(t: Table<ActiveConnection>, interfaces: seq<string>): Table<ActiveConnection> {
    if t == [] then []
    else
      var rest := ActivesOn(t[..|t| - 1], interfaces);
      if ActiveOn(t[|t| - 1].value, interfaces) then rest + [t[|t| - 1]] else rest
  }

  function ConnectionsOn(t: Table<Connection>, interfaces: seq<string>): Table<Connection> {
    if t == [] then []
    else
      var rest := ConnectionsOn(t[..|t| - 1], interfaces);
      if ConnectionOn(t[|t| - 1].value, interfaces) then rest + [t[|t| - 1]] else rest
  }

  /** The part of the state a checkpoint over these devices captures. */
  function Slice(s: State, devices: seq<string>): Snapshot {
    var interfaces := InterfacesOf(devices);
    Snapshot(
      ActivesOn(s.activeConnections, interfaces),
      ConnectionsOn(s.connections, interfaces),
      map k | k in s.deviceManaged && k in interfaces :: s.deviceManaged[k],
      s.hostname, s.networkingEnabled, [], s.sleeping)
  }

  function AfterRestore(s: State, snapshot: Snapshot): State {
    s.(connections := snapshot.connections,
       activeConnections := snapshot.activeConnections,
       deviceManaged := snapshot.deviceManaged,
       hostname := snapshot.hostname,
       networkingEnabled := snapshot.networkingEnabled,
       sleeping := snapshot.sleeping,
       versionId := s.versionId + 1)
  }

  lemma {:induction false} ConnectionsOnMembers(t: Table<Connection>, interfaces: seq<string>)
    ensures forall e :: e in ConnectionsOn(t, interfaces) <==> e in t && ConnectionOn(e.value, interfaces)
    ensures PathSet(ConnectionsOn(t, interfaces)) <= PathSet(t)
    ensures Distinct(t) ==> Distinct(ConnectionsOn(t, interfaces))
  {
    if t != [] {
      var front, last := t[..|t| - 1], t[|t| - 1];
      ConnectionsOnMembers(front, interfaces);
      Unsnoc(t);
      Snoc(ConnectionsOn(front, interfaces), last);
    }
  }

  function DevicePaths(names: seq<string>): seq<string> {
    seq(|names|, i requires 0 <= i < |names| => DevicePath(names[i]))
  }

  /** A device path is listed for the interface, but its last element is the escaped name. */
  lemma {:induction false} ListedIffElement(names: seq<string>, interfaceName: string)
    requires interfaceName in names
    ensures interfaceName in InterfacesOf(DevicePaths(names)) <==> IsElement(interfaceName)
  {
    var paths, interfaces := DevicePaths(names), InterfacesOf(DevicePaths(names));
    forall i | 0 <= i < |names| ensures interfaces[i] == Segment(names[i]) && IsElement(interfaces[i]) {
      LastSegmentOfDevicePath(names[i]);
      SegmentIsElement(names[i]);
    }
    var k :| 0 <= k < |names| && names[k] == interfaceName;
    SegmentFixpoint(interfaceName);
    assert interfaces[k] == Segment(interfaceName);
  }

  /** Whatever devices a checkpoint lists, those of the record's interface among them: it captures the
      record exactly when the interface name needs no escaping. */
  lemma {:induction false} SliceCapturesInterface(s: State, names: seq<string>, interfaceName: string,
                                                  e: Entry<Connection>)
    requires interfaceName in names
    requires e in s.connections && e.value.InterfaceName() == Some(interfaceName)
    ensures e in Slice(s, DevicePaths(names)).connections <==> IsElement(interfaceName)
  {
    ListedIffElement(names, interfaceName);
    ConnectionsOnMembers(s.connections, InterfacesOf(DevicePaths(names)));
  }

  /** And it captures the managed flag of the interface exactly for such names as well. */
  lemma {:induction false} SliceCapturesManagedFlag(s: State, names: seq<string>, interfaceName: string)
    requires interfaceName in names && interfaceName in s.deviceManaged
    ensures interfaceName in Slice(s, DevicePaths(names)).deviceManaged <==> IsElement(interfaceName)
  {
    ListedIffElement(names, interfaceName);
  }

  lemma {:induction false} ActivesOnMembers(t: Table<ActiveConnection>, interfaces: seq<string>)
    ensures forall e :: e in ActivesOn(t, interfaces) <==> e in t && ActiveOn(e.value, interfaces)
  {
    hide ActiveOn;
    if t != [] {
      var front, last := t[..|t| - 1], t[|t| - 1];
      ActivesOnMembers(front, interfaces);
      assert t == front + [last];
      assert forall e :: e in t <==> e in front || e == last;
    }
  }

  /** Active connections are captured by their devices, connections by their settings. So an active
      connection that a rollback brings back has a live connection exactly when the settings of that
      connection name an interface of the checkpoint. */
  lemma {:induction false} RestoredActiveIsLive(s: State, later: State, devices: seq<string>,
                                                a: Entry<ActiveConnection>)
    requires Distinct(s.connections) && a in s.activeConnections && a.value.connection in PathSet(s.connections)
    ensures var restored := AfterRestore(later, Slice(s, devices));
            var connection := Lookup(s.connections, a.value.connection).value.value;
            && (a in restored.activeConnections <==> ActiveOn(a.value, InterfacesOf(devices)))
            && (a.value.connection in PathSet(restored.connections)
                <==> ConnectionOn(connection, InterfacesOf(devices)))
  {
    var interfaces := InterfacesOf(devices);
    ActivesOnMembers(s.activeConnections, interfaces);
    ConnectionsOnMembers(s.connections, interfaces);
    var e := Lookup(s.connections, a.value.connection).value;
    var kept := ConnectionsOn(s.connections, interfaces);
    forall f | f in kept && f.path == e.path ensures f == e {
      var i :| 0 <= i < |s.connections| && s.connections[i] == f;
      DistinctLookup(s.connections, i);
    }
  }

  // ------------------------------------------------------------------- deadlines

  const I64_MAX: int := 0x7FFF_FFFF_FFFF_FFFF
  const U32_MAX: int := 0xFFFF_FFFF

  function Max(a: int, b: int): int {
    if a > b then a else b
  }

  function Min(a: int, b: int): int {
    if a < b then a else b
  }

  /** `i64::saturating_add` for a non-negative second argument. */
  function SaturatingAdd(a: int, b: nat): int {
    Min(a + b, I64_MAX)
  }

  /** Two's complement wrap-around of a 64-bit result. */
  function Wrap64(x: int): int {
    (x + 0x8000_0000_0000_0000) % 0x1_0000_0000_0000_0000 - 0x8000_0000_0000_0000
  }

  /** Division that truncates toward zero. */
  function TruncatingDiv(a: int, b: int): int
    requires b > 0
  {
    if a >= 0 then a / b else -((-a) / b)
  }

  /** The time left in seconds, rounded up on 64-bit integers, or the largest u32 if that does not fit. */
  function SecondsLeft(deadline: int, now: int): nat {
    var q := TruncatingDiv(Wrap64(Wrap64(deadline - now) + 999), 1000);
    if 0 <= q <= U32_MAX then q else U32_MAX
  }

  function RollbackTimeout(cp: Checkpoint, now: int): nat {
    match cp.deadline
    case Some(deadline) => if deadline > now then SecondsLeft(deadline, now) else 0
    case None => cp.rollbackTimeout
  }

  function NewCheckpoint(created: int, devices: seq<string>, rollbackTimeout: nat, snapshot: Snapshot): Checkpoint {
    Checkpoint(created, devices, rollbackTimeout,
               if rollbackTimeout == 0 then None else Some(SaturatingAdd(created, rollbackTimeout * 1000)),
               snapshot)
  }

  function Adjusted(cp: Checkpoint, now: int, addTimeout: nat): Checkpoint {
    var baseline := Max(match cp.deadline case Some(d) => d case None => now, now);
    var extended := SaturatingAdd(baseline, addTimeout * 1000);
    cp.(deadline := Some(extended), rollbackTimeout := SecondsLeft(extended, now))
  }

  /** The whole seconds left are the fewest that reach the deadline, capped at the largest
      u32, even where the 64-bit sum before the division wraps. */
  lemma {:induction false} SecondsLeftIsLeast(deadline: int, now: int)
    requires 0 <= now < deadline <= I64_MAX
    ensures 0 < SecondsLeft(deadline, now) <= U32_MAX
    ensures forall n: nat :: n < SecondsLeft(deadline, now) ==> now + 1000 * n < deadline
    ensures SecondsLeft(deadline, now) < U32_MAX ==> deadline <= now + 1000 * SecondsLeft(deadline, now)
  {
    var d := deadline - now;
    assert Wrap64(d) == d;
    if d + 999 <= I64_MAX {
      assert Wrap64(d + 999) == d + 999;
    } else {
      assert Wrap64(d + 999) == d + 999 - 0x1_0000_0000_0000_0000;
    }
  }

  /** The reported timeout is zero exactly when the deadline has passed. */
  lemma {:induction false} TimeoutZeroWhenPassed(cp: Checkpoint, now: int)
    requires cp.deadline.Some? && 0 <= now && cp.deadline.value <= I64_MAX
    ensures RollbackTimeout(cp, now) == 0 <==> cp.deadline.value <= now
  {
    if cp.deadline.value > now {
      SecondsLeftIsLeast(cp.deadline.value, now);
    }
  }

  /** An adjustment never moves the deadline earlier, and reports what is left of the new one. */
  lemma {:induction false} AdjustExtends(cp: Checkpoint, now: int, addTimeout: nat)
    requires 0 <= now <= I64_MAX
    requires cp.deadline.Some? ==> cp.deadline.value <= I64_MAX
    ensures var after := Adjusted(cp, now, addTimeout);
            && after.deadline.Some? && now <= after.deadline.value <= I64_MAX
            && (cp.deadline.Some? ==> cp.deadline.value <= after.deadline.value)
            && (cp.deadline.Some? && addTimeout > 0 && Max(cp.deadline.value, now) < I64_MAX
                ==> Max(cp.deadline.value, now) < after.deadline.value)
            && after.rollbackTimeout == RollbackTimeout(after, now)
            && after.snapshot == cp.snapshot && after.devices == cp.devices
  {
    var after := Adjusted(cp, now, addTimeout);
    if after.deadline.value == now {
      assert SecondsLeft(now, now) == 0;
    }
  }
}
