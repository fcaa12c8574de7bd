# A verified model of the NetworkManager D-Bus proxy

The service keeps one in-memory copy of the network state behind one mutex, reconciles it again and
again with systemd-networkd and iwd, and serves D-Bus clients and checkpoint timers meanwhile. This
project models that copy, the reconciler, the checkpoint protocol, and the profile files, and proves
what each of them promises: over every input, and where several callers are at work over every
interleaving of their steps.

`dafny verify dfyconfig.toml` checks everything. No file depends on anything outside this directory.

## Layout

| file | what is in it |
|---|---|
| `Text.dfy`, `ObjectPaths.dfy` | UTF-8, decimal numbers, lines and trimming; the escaping of names into object paths |
| `Tables.dfy` | ordered tables keyed by path, added/removed signals, the three loops a sync makes over a table |
| `RuntimeState.dfy`, `Runtime.dfy` | the records, the guarded state as a value, and the class whose methods are the atomic steps |
| `Backends.dfy`, `Sync.dfy` | what networkd and iwd report; the reconciler as methods over the runtime, each against a specification function |
| `SyncConnections.dfy`, `SyncTheorems.dfy`, `SyncAux.dfy` | what a completed sync leaves, what it announces, and that a second one is silent |
| `ActiveLinks.dfy`, `SyncRecords.dfy` | what the active connections and the other records of a completed sync say, in terms of what the backends report |
| `System.dfy`, `SystemSteps.dfy` | every interleaving of callers, timers and the clock, as a state machine |
| `SystemPaths.dfy`, `SystemTables.dfy`, `SystemCheckpoints.dfy`, `SystemTimers.dfy` | what holds in all its states: paths, tables, checkpoints, timers |
| `SystemVersion.dfy`, `SystemTime.dfy` | the version as a change token and what Update2 overwrites; which checkpoints have a timer and when it acts |
| `SystemDeadlines.dfy`, `SystemRollback.dfy` | over whole runs: the deadline a client asked for and a timer that is never early; what a rollback brings back, field by field |
| `SystemRuns.dfy`, `SystemEdits.dfy` | a sync and the edits of a connection as runs of the state machine; two edits that cross |
| `CheckpointFiles.dfy` | the records a checkpoint captures, the files it reads a step later, and whether the two still agree |
| `Links.dfy`, `Activation.dfy`, `Rollback.dfy`, `Checkpoints.dfy` | bringing links up and down, activation, the whole rollback, and how the interleaved model and the methods agree |
| `ProfileText.dfy`, `ProfileRoundTrips.dfy`, `ProfileLines.dfy` | printers and the reader of profile files, what comes back, and what is written where |
| `ProfileDirectory.dfy`, `ProfileStore.dfy`, `ProfileMirror.dfy`, `ProfileOutcomes.dfy` | the files as mutable state, the operations on user connections, the mirror between records and files |
| `Import.dfy` | loading, pruning and reloading |

Imperative code of the service is imperative here: `Runtime`, `Directory` and `LinkControl` are classes
whose fields the methods reassign, and every loop of the program is a loop with invariants. Each such
method is specified by a function on values, and the theorems are about those functions; what an operation
means to its caller is stated once more without them, in fields, records and literal texts. What one
caller does between two locks is modelled in `System.dfy`: a caller carries an allocated path, a
half-made checkpoint or a removed checkpoint record as its own local state while others act.

Three things are parameters: the name-based UUID function, the clock, and the outcome of operations
on links and files (sets of interfaces and paths on which they fail). The state of the two backends
is an input value.

## Findings

Properties that the code does not have are stated with the condition under which it has them.

- A checkpoint compares interface names with the last element of device paths, which is escaped. A
  connection, or a managed flag, of an interface is captured exactly when its name needs no escaping
  (`SliceCapturesInterface`, `SliceCapturesManagedFlag`). Deactivating and the rollback read the name back
  from the device path in the same way (`ActivateThenDeactivate`).
- `active_connection_for_interface` matches by suffix: `eth1` finds `veth1` (`FindsAnother`), and a name that
  needs escaping does not find itself (`FindsItself`).
- A stored checkpoint has a timer exactly when a timeout was asked for and its creation has gone on, after
  registering the object, to start the timer (`TimerIffTimeout`). One made without a timeout and adjusted later has a deadline
  that no timer watches (`AdjustStartsNoTimer`, `UntimedCheckpoint`).
- A timer that has seen the deadline passed rolls back even if an adjust moves the deadline ahead first.
  With one adjust in between, that happens with the deadline still ahead exactly when less time has gone by
  since the adjust than it added (`AdjustAfterCheckIsTooLate`); without one the deadline has still passed
  (`FiredRollsBack`).
- `Update2` clones a record, compares versions and writes in three locks. Once the comparison has passed, the
  write overwrites something the client did not see exactly when the last step in between that concerns the
  record leaves another one; comparing again at the write would notice every counting step in between and
  nothing else (`Update2Overwrites`, `UpdateAfterCheckIsLost`).
- A rollback spends its checkpoint before the files are restored; when a file cannot be written the
  runtime stays as it was and the checkpoint is gone (`RollbackCheckpoint`).
- Two saved Wi-Fi connections with one SSID and the same kind of security share one file, and then the files
  no longer mirror the records (`FilenamesCollide`, `SecondRecordTakesTheFile`). Adding or changing a connection
  keeps the mirror exactly when the name it asks for is its own or nobody's (`AddKeepsMirrorIff`,
  `EditKeepsMirrorIff`). An old file that cannot be removed leaves the new one behind
  (`StuckFileBreaksMirror`, with its exact condition).
- An import keeps one record for each file exactly when every record whose file it lists is the first with an
  imported uuid of a listed file (`ImportKeepsFilesApartIff`). Importing the file of a connection saved under a
  uuid of its own therefore makes a second record for it. Saving an imported wired profile never writes the file
  it came from (`LoadedWiredMovesWhenSaved`).
- A rollback restores active connections by their devices and connections by their settings: a restored active
  connection has a live connection exactly when the settings of that connection name an interface of the
  checkpoint (`RestoredActiveIsLive`).
- A checkpoint captures the records in one step and reads the files in a later one. The files mirror the records
  that its rollback leaves exactly when what each captured record says of its file is still so at the reading
  (`RollbackMirrorsIff`). One edit of a captured record in between breaks that exactly when it is saved
  with another profile or under another name (`EditWhileReading`); `RenameWhileReading` is such an edit.
- Two edits of one record write their files in one order and may store their records in the other. The file is
  then that of the edit that wrote last, and the record that of the edit that stored last (`InterleavedEdits`).
- A virtual-device profile is never loaded as what it was: if it loads, it is a Wi-Fi network
  (`NetdevLoadsAsWifi`). A wired profile loads as one exactly when its uuid does not end in a slash. An SSID
  comes back unless it is empty; a passphrase or interface name comes back exactly when it is trimmed and has
  no line feed (`WifiRoundTrip`, `WiredRoundTrip`, `SavedWifiLoadsBack`).
- When a device stops being a P2P device its peers are dropped without a signal (`PeersFollowed`).
- Two interface names can share one path element (`SegmentCollisions`); `SegmentDecodes` says exactly when the
  name can be read back.

## Model

| member | source | states |
|---|---|---|
| `ObjectPaths.ObjectPathSegment` | src/lib.rs:88-104 | the loop over the bytes yields the escaped element, `_` for the empty name |
| `ObjectPaths.SegmentIsElement` | src/lib.rs:88-104 | an element is never empty and has only letters, digits and underscores |
| `ObjectPaths.GeneratedPathsAreValid` | src/lib.rs:106-122 | device, active-connection, config, settings and checkpoint paths are valid object paths for every name and number |
| `ObjectPaths.UuidPathsAreValid` | src/lib.rs:124-133 | access-point and peer paths are valid object paths, given a uuid of letters, digits and dashes |
| `ObjectPaths.SegmentIdempotent` | src/lib.rs:88-104 | escaping an element again changes nothing |
| `ObjectPaths.SegmentFixpoint` | src/lib.rs:88-104 | a name is its own element exactly when it already is one |
| `ObjectPaths.SegmentDecodes` | src/lib.rs:88-104 | a left-to-right decoder recovers the bytes of a name exactly when the name is not empty and has no underscore followed by the two digits of an escaped byte |
| `ObjectPaths.SegmentInjective` | src/lib.rs:88-104 | two such names with one element are equal |
| `ObjectPaths.SegmentCollisions` | src/lib.rs:88-104 | `-` and `_2d` share an element, and so do the empty name and `_` |
| `ObjectPaths.LastSegmentOfDevicePath` | src/lib.rs:106-108 | the text after the last slash of a device path is the escaped name |
| `ObjectPaths.ActivationAgreesWithSync` | src/network_manager/mod.rs:141-174 | the active-connection path that activation computes from a device path is the one a sync computes from the raw name, for every name |
| `ObjectPaths.ActivationInterface` | src/network_manager/mod.rs:141-152 | the interface read from a device path is the raw name exactly when the name needs no escaping |
| `ObjectPaths.SettingsPathInjective` | src/runtime.rs:404-417 | different numbers give different settings paths |
| `ObjectPaths.CheckpointPathInjective` | src/runtime.rs:419-432 | different numbers give different checkpoint paths |
| `Text.ParseDecimal` | src/runtime.rs:22-35 | a printed number parses back to itself, with or without a plus sign, which is what the start id relies on |
| `Text.Utf8RoundTrip` | src/persistence.rs:127-136 | decoding the UTF-8 bytes of any text gives the text back |
| `Text.Utf8IsStrict` | src/persistence.rs:127-136 | and nothing but the encoding of a text decodes to it |
| `RuntimeStore.Runtime.constructor` | src/runtime.rs:37-63 | the fresh store holds the given connections and nothing else, is enabled and awake, and counts from 1; its next settings id is the first free one |
| `RuntimeStore.Runtime.NextConnectionPath` | src/runtime.rs:404-417 | returns the path of the counter and moves the counter on, nothing else |
| `RuntimeStore.Runtime.AddConnection` | src/runtime.rs:159-164 | appends the record and counts one version |
| `RuntimeStore.Runtime.UpdateConnection` | src/runtime.rs:562-575 | changes the first record with the path in place and counts one version, or finds none and changes nothing |
| `RuntimeStore.Runtime.RemoveConnection` | src/runtime.rs:457-466 | removes and returns the first record with the path and counts one version, or changes nothing |
| `RuntimeStore.Runtime.UpsertAccessPoint` | src/runtime.rs:577-589 | replaces the access point with the same path in place, or appends it |
| `RuntimeStore.Runtime.RemoveAccessPoint` | src/runtime.rs:447-455 | removes the first access point with the path |
| `RuntimeStore.Runtime.UpsertDevice` | src/runtime.rs:591-603 | replaces the device with the same path in place, or appends it |
| `RuntimeStore.Runtime.RemoveDevice` | src/runtime.rs:468-476 | removes and returns the first device with the path |
| `RuntimeStore.Runtime.UpsertWirelessDevice` | src/runtime.rs:369-381 | replaces the wireless record of the interface in place, or appends it |
| `RuntimeStore.Runtime.RemoveWirelessDevice` | src/runtime.rs:330-339 | removes the wireless record of the interface |
| `RuntimeStore.Runtime.AddActiveConnection` | src/runtime.rs:150-157 | drops the record with the same path and appends the new one |
| `RuntimeStore.Runtime.RemoveActiveConnection` | src/runtime.rs:434-445 | removes and returns the first active connection with the path |
| `RuntimeStore.Runtime.NextCheckpointPath` | src/runtime.rs:419-432 | returns the path of the counter and moves the counter on |
| `RuntimeStore.Runtime.CheckpointSnapshot` | src/runtime.rs:101-148 | its three filters give the slice of the state that concerns the listed devices, and change nothing |
| `RuntimeStore.Runtime.AddCheckpoint` | src/runtime.rs:175-177 | appends the checkpoint |
| `RuntimeStore.Runtime.RemoveCheckpoint` | src/runtime.rs:478-486 | removes and returns the first checkpoint with the path, or changes nothing: the point where a rollback, a destroy and a timer race |
| `RuntimeStore.Runtime.AdjustCheckpoint` | src/network_manager/mod.rs:343-359 | moves the deadline on from the later of itself and now, saturating, and records the seconds left |
| `RuntimeStore.Runtime.CheckpointRollbackTimeout` | src/runtime.rs:634-652 | reports the seconds left of a stored checkpoint, or that there is none |
| `RuntimeStore.Runtime.RestoreCheckpointSnapshot` | src/runtime.rs:605-615 | each of the six captured fields is again that of the snapshot, one version is counted, everything else stays |
| `RuntimeStore.Runtime.SetHostname` | src/runtime.rs:498-503 | sets the hostname and counts one version |
| `RuntimeStore.Runtime.SetDeviceManaged` | src/runtime.rs:505-511 | sets one managed flag |
| `RuntimeStore.Runtime.SetNetworkingEnabled` | src/runtime.rs:513-517 | sets the flag only |
| `RuntimeStore.Runtime.SetSleeping` | src/runtime.rs:538-542 | sets the flag only |
| `RuntimeState.LookupUuid` | src/runtime.rs:209-217 | finds a record with the uuid if and only if there is one |
| `RuntimeState.ConnectionsOnMembers` | src/runtime.rs:101-148 | the captured connections are exactly those whose interface is listed, in a table that keeps paths distinct |
| `RuntimeState.SliceCapturesInterface` | src/runtime.rs:101-148 | whatever devices a checkpoint lists, one of them the interface's: it captures the interface's connections exactly when the name needs no escaping |
| `RuntimeState.SliceCapturesManagedFlag` | src/runtime.rs:101-148 | and the interface's managed flag exactly then as well |
| `RuntimeState.RestoredActiveIsLive` | src/runtime.rs:101-148 | an active connection is restored exactly by its devices, and its connection is live afterwards exactly when that connection's settings name an interface of the checkpoint |
| `RuntimeState.SecondsLeftIsLeast` | src/runtime.rs:644-650 | the reported timeout is the least number of whole seconds that reaches the deadline, capped at the 32-bit maximum |
| `RuntimeState.TimeoutZeroWhenPassed` | src/runtime.rs:644-650 | the timeout of a checkpoint with a deadline is zero exactly when the deadline has passed |
| `RuntimeState.AdjustExtends` | src/network_manager/mod.rs:351-358 | an adjust never moves the deadline earlier, moves it strictly later short of saturation, and records the timeout that will be reported |
| `Sync.UpsertBackendConnection` | src/lib.rs:1634-1668 | updates the first record with the wanted uuid in place, or adds one under a newly issued path and announces it |
| `Sync.UpsertWifiConnections` | src/lib.rs:1627-1669 | the walk over known networks upserts each wanted Wi-Fi connection in order |
| `Sync.UpsertWiredConnections` | src/lib.rs:1671-1719 | the walk over links upserts the wanted connection of each link that is not Wi-Fi |
| `Sync.SyncConnections` | src/lib.rs:1627-1743 | both walks and then the removal of backend records that nobody wants, with the signals in order |
| `Sync.UpsertStationAccessPoints` | src/lib.rs:1745-1821 | the access points one station sees are upserted in order, and those that were not there are announced |
| `Sync.PruneAccessPoints` | src/lib.rs:1822-1843 | access points that are not desired are removed and announced, in table order |
| `Sync.SyncAccessPoints` | src/lib.rs:1745-1843 | the whole access-point phase |
| `Sync.DropDevice` | src/lib.rs:1858-1885 | a device that is gone takes its wireless record, peers and configs with it |
| `Sync.PruneDevices` | src/lib.rs:1851-1886 | devices that are not desired are removed with what belongs to them |
| `Sync.SyncDeviceObject` | src/lib.rs:1042-1332 | one device record is replaced or added, its wireless record refreshed, left or dropped by link type, and the configs and peers that changed are announced |
| `Sync.UpsertDevices` | src/lib.rs:1887-1929 | the walk over links syncs each device in link order |
| `Sync.SyncDevices` | src/lib.rs:1845-1929 | the whole device phase |
| `Sync.RefreshWirelessDevices` | src/lib.rs:1962-1997 | every wireless link gets its record anew |
| `Sync.PruneActives` | src/lib.rs:2003-2020 | active connections that are not desired are removed and announced |
| `Sync.PushActives` | src/lib.rs:2021-2041 | each desired active connection is filtered out and appended, and announced if it was not there |
| `Sync.SyncActives` | src/lib.rs:1931-2041 | the whole active-connection phase |
| `Sync.SyncBackends` | src/lib.rs:1613-2076 | one completed sync leaves exactly the state, and sends exactly the signals, of the specification function |
| `SyncConnectionFacts.WantedUuidsAreThere` | src/lib.rs:1627-1743 | after a sync every wanted uuid has a record that holds what the last wish for it says, under the path it had before if it had one |
| `SyncConnectionFacts.UnwantedRecordsAreTheUsers` | src/lib.rs:1721-1743 | of the records nobody wants exactly the user's own survive, unchanged and in their order |
| `SyncConnectionFacts.NoStaleBackendsLeft` | src/lib.rs:1721-1743 | every backend record left is wanted |
| `SyncConnectionFacts.SurvivorsKeepPaths` | src/lib.rs:1627-1743 | a record that is still there under its path is for the same uuid |
| `SyncConnectionFacts.SurvivorsKeepOrder` | src/lib.rs:1627-1743 | two records that survive keep their relative order |
| `SyncConnectionFacts.SyncedConnectionsExact` | src/lib.rs:1627-1743 | the connection signals are exactly new minus old and old minus new, each once |
| `SyncConnectionFacts.SyncedConnectionsAgain` | src/lib.rs:1627-1743 | a second walk with the same wishes changes no record, spends no path and announces nothing |
| `SyncTheorems.SyncKeepsReady` | src/lib.rs:1613-2076 | a sync keeps paths distinct in every table and the next settings path fresh |
| `SyncTheorems.SyncTwice` | src/lib.rs:1613-2076 | with the same backends a second sync leaves the whole state as it is but for the version, and sends no signal |
| `SyncTheorems.SyncAnnouncesTheDifference` | src/lib.rs:1613-2076 | over all four tables the signals are exactly the difference, each object once, so folding them over the old objects gives the new ones |
| `ActiveLinks.ActiveOfLink` | src/lib.rs:1931-2041 | a link has an active connection after a sync exactly when it is active, is no loopback and a connection has the uuid of its type and name, or on Wi-Fi of the network it is connected to; the record then describes the first such connection on the link's device |
| `ActiveLinks.WiredLinkIsShown` | src/lib.rs:1679-1686 | every active link that is neither Wi-Fi nor a loopback and has a connection type has one, because the connection that the same sync stores for it carries the uuid that the list looks for |
| `ActiveLinks.WifiLinkIsShown` | src/lib.rs:1936-1951 | and so has every active Wi-Fi link whose station is connected to a network that iwd lists as known |
| `ActiveLinks.ActivesOfLinks` | src/lib.rs:1931-2041 | no other active connection is there, and they are in link order although each insert filters out and appends |
| `ActiveLinks.PrimaryOfLinks` | src/lib.rs:1931-2041 | the head of the list describes the connection behind the first link that meets these conditions; the list is empty exactly when none does |
| `SyncRecords.WiredRecordSays` | src/lib.rs:1671-1719 | a link with a connection type has its connection, with its name, uuid, profile file, automatic connection and addresses, if no other link has the uuid |
| `SyncRecords.WifiRecordSays` | src/lib.rs:1617-1669 | a known network has its connection on the first Wi-Fi link, with its SSID, whether it is hidden, its file, and key management unless it is open, if nothing else has the uuid |
| `SyncRecords.DeviceRecordSays` | src/lib.rs:1042-1332 | there is one device for each link and no other; it has each config path exactly if the link has that config, and lists exactly the peers its station sees |
| `SyncRecords.AccessPointRecordsSay` | src/lib.rs:1745-1843 | the access points are exactly those of networks that some station sees, each with the network's name and security, a reported signal and the address of its first basic service set |
| `SyncRecords.WirelessRecordSays` | src/lib.rs:1961-1997 | a Wi-Fi link has its wireless record, with the faster bit rate in thousands, its station's networks in order and the connected one; a link of another kind, Ethernet and loopback aside, has none |
| `SyncRecords.WirelessGoesWithDevice` | src/lib.rs:1859-1886 | the wireless record of a device that is gone is gone, unless a Wi-Fi link has its name |
| `SyncTheorems.ActivesAreLive` | src/lib.rs:1524-1549 | every active record's connection and devices are in the tables |
| `SyncAuxTheorems.ConfigsExact` | src/lib.rs:1042-1332 | the config signals of one device are exactly the difference of its config paths |
| `SyncAuxTheorems.ConfigSignals` | src/lib.rs:1070-1108 | a config object is announced as added exactly if the new device has it and the old one had not, and as removed exactly the other way round |
| `SyncAuxTheorems.PeerSignals` | src/lib.rs:1900-1928 | and so is a peer, as long as the link is a P2P device |
| `SyncAuxTheorems.RemovedSignals` | src/lib.rs:1859-1889 | a device that goes announces its config objects, and its peers if it is a P2P device |
| `SyncAuxTheorems.AuxSignals` | src/lib.rs:1845-1929 | the config and peer signals of a whole sync are those of every device that goes and those of every other one against its old record |
| `SyncAuxTheorems.PeersFollowed` | src/lib.rs:1900-1928 | a client that folds the peer signals ends with the device's peers exactly when the link is a P2P device or there were no peers |
| `SyncAuxTheorems.SecondSyncAuxQuiet` | src/lib.rs:1845-1929 | a second sync announces no config and no peer |
| `Tables.UpsertAllExact` | src/runtime.rs:577-603 | announcing each entry that was not there is exact for every list, repeated paths included |
| `Tables.PruneFacts` | src/runtime.rs:434-476 | removing what is not desired keeps exactly the desired entries in their order and announces exactly the others |
| `Tables.RepushAllInOrder` | src/runtime.rs:150-157 | filtering out and appending each entry of a list with distinct paths, when no other entries are there, leaves the list itself |
| `Tables.ExactReplay` | src/lib.rs:1334-1384 | folding exact signals over the old objects gives the new ones |
| `SystemPaths.FirstFreeIdIsFree` | src/runtime.rs:22-35 | no initial connection has a path that the counter will issue |
| `SystemPaths.FirstFreeIdIsNext` | src/runtime.rs:22-35 | the first number issued is one more than the largest that ends an initial path, or 1 |
| `SystemPaths.PathsUnderInterleaving` | src/runtime.rs:404-417 | in every interleaving live connections have distinct paths, each settings path is issued once, and a path not inserted yet is in no live table and no stored or carried snapshot |
| `SystemPaths.IssuedPathIsFresh` | src/runtime.rs:404-417 | at the moment it is issued a path was never issued, is in no table or snapshot, and no other caller holds it |
| `SystemPaths.RestoreKeepsPathsInv` | src/runtime.rs:605-615 | replacing the whole table by a snapshot keeps all of that |
| `SystemCheckpoints.StepKeepsOnePlace` | src/network_manager/mod.rs:318-326 | after any action each checkpoint is owned by one caller, stored, or done with for good |
| `SystemCheckpoints.RestoredAtMostOnce` | src/network_manager/mod.rs:1009-1030 | in every interleaving of rollbacks, destroys and timers each checkpoint is restored at most once and never once destroyed |
| `SystemRollback.RollbackBringsBack` | src/runtime.rs:605-615 | whatever happens between capture and restore, hostname and both switches are those of the capture; managed flags, connections and active connections are exactly those on the listed devices, as they were and in their order; everything else is as just before |
| `SystemRollback.SettingsAfter` | src/runtime.rs:498-542 | no step but its own setter and a rollback changes the hostname, a switch or a managed flag |
| `SystemCheckpoints.RollbackReturnsFiles` | src/persistence.rs:51-85 | and the profile directories exactly as they were when the checkpoint read them, given that file operations succeed |
| `SystemTables.ReadyUnderInterleaving` | src/runtime.rs:150-157 | in every interleaving all five tables keep distinct paths, the next settings path is fresh, and the active connections of every stored or carried snapshot are distinct |
| `SystemTables.SyncFromAnyState` | src/lib.rs:1613-2076 | from every reachable state a sync announces exactly what it changes and a second one changes and announces nothing |
| `SystemVersion.VersionIsAChangeToken` | src/runtime.rs:562-575 | in any run the version moves by one for each counting step and by nothing else, and two states with equal versions have equal connection lists and hostnames |
| `SystemVersion.CheckPassesIff` | src/network_manager/settings_connection.rs:217-225 | a comparison with a version seen earlier passes exactly when no step since then counted |
| `SystemVersion.ChangedIff` | src/runtime.rs:562-575 | after any run a record is another than before exactly when the last step that concerns its path leaves another |
| `SystemRuns.SyncIsARun` | src/lib.rs:1613-2076 | a completed sync is a run of atomic steps of the state machine that touches no file, no checkpoint and no clock, so what holds of every run holds in the middle of a sync |
| `SystemEdits.EditIsARun` | src/network_manager/settings_connection.rs:336-364 | an edit is a run of its file accesses and, if they work, one update of the runtime |
| `SystemEdits.InterleavedEdits` | src/network_manager/settings_connection.rs:346-364 | of two edits of one record under one name the file is that of the last to write; it is the record's exactly when that edit stored last as well or both print the same profile |
| `SystemVersion.Update2Overwrites` | src/network_manager/settings_connection.rs:213-244 | when the comparison of versions passes, the clone is the record the client saw; comparing again at the write would pass exactly when no counting step lies between; and the write overwrites what the client did not see exactly when the last step between that concerns the record leaves another |
| `SystemVersion.UpdateAfterCheckIsLost` | src/network_manager/settings_connection.rs:217-244 | another's update between the check and the write, the last to concern the record, is overwritten by the edit of the record the client saw |
| `SystemTimers.TickReads` | src/network_manager/mod.rs:996-1004 | one check of a timer fires exactly when the deadline has passed, ends exactly when the checkpoint is gone, and sleeps on exactly when the deadline is ahead |
| `SystemTimers.TickDecides` | src/network_manager/mod.rs:992-1007 | the same in every state that any run reaches |
| `SystemTime.TimerStays` | src/network_manager/mod.rs:992-1007 | as long as a checkpoint is stored no step takes its timer away |
| `SystemTime.TimerIffTimeout` | src/network_manager/mod.rs:280-314 | after it is stored, through any run and while it stays stored, a checkpoint has a timer if and only if a timeout was asked for and its creation, the registration behind it, has gone on to start the timer |
| `SystemTime.AdjustStartsNoTimer` | src/network_manager/mod.rs:343-359 | a checkpoint found without a deadline never has a timer later, though an adjust gives it a deadline |
| `SystemTime.UnwatchedEndsByHand` | src/network_manager/mod.rs:318-326 | a checkpoint without a timer leaves the table only by a destroy or a manual rollback |
| `SystemTime.RunMovesDeadline` | src/network_manager/mod.rs:351-358 | through any run a stored deadline is moved by the adjusts of its checkpoint, by the clock and the amounts, and by nothing else |
| `SystemTime.FiredRollsBack` | src/network_manager/mod.rs:996-1003 | a timer that has fired wins its checkpoint if it is still stored; without an adjust in between the deadline has still passed then |
| `SystemTime.AdjustAfterCheckIsTooLate` | src/network_manager/mod.rs:996-1003 | with one adjust after the check, the timer rolls back with the deadline ahead exactly when less time has gone by since the adjust than it added |
| `SystemTime.TimerEndsInTime` | src/network_manager/mod.rs:992-1007 | from the storing on, with at least a second for each round and no adjust, a timer has ended after as many rounds as the timeout asked for, whatever else happens |
| `SystemTime.TimerEndsAsReported` | src/network_manager/mod.rs:992-1007 | from any reached state, adjusted or not, it has ended after as many rounds as are reported then, short of the largest report |
| `SystemTime.NewTimeoutIsAsked` | src/network_manager/mod.rs:274-292 | in every run a checkpoint about to be stored has exactly the deadline asked for, in milliseconds from its beginning and capped at 64 bits, and reports no more seconds than were asked for |
| `SystemDeadlines.StoredSinceNaming` | src/network_manager/mod.rs:273-293 | from the beginning of a checkpoint through any run without an adjust of it, wherever it is found stored it has the beginning, devices, timeout and deadline that were asked for |
| `SystemDeadlines.TimerIsNotEarly` | src/network_manager/mod.rs:280-314 | and its timer has fired only if the whole timeout has gone by since the beginning, short of the largest time there is |
| `Links.LinkControl.Call` | src/network_manager/mod.rs:898-953 | a link operation is logged and, unless it is one that fails on this interface, puts it up or down and no other |
| `Links.ClearRecord` | src/network_manager/mod.rs:1351-1379 | the link of one record goes down first, and the record goes only if that works |
| `Links.ClearActiveConnectionsOfTypes` | src/network_manager/mod.rs:1342-1390 | exactly the other records stay, in their order; a failing link stops the walk with exactly the matching records before it gone and the calls up to it made |
| `Links.ClearedLinksAreDown` | src/network_manager/mod.rs:1342-1390 | when no Wi-Fi or Ethernet record of the types has a first device whose link cannot go down, the walk ends, those links are down and no other has changed |
| `Links.StopsAtFirstStuck` | src/network_manager/mod.rs:1351-1379 | otherwise it stops at the first record whose link is stuck |
| `Links.ClearingKeepsOthers` | src/network_manager/mod.rs:1342-1390 | exactly the records of other types stay, in their order, and the interface of every cleared record that has one is reported |
| `Activation.ActivateConnection` | src/network_manager/mod.rs:129-211 | one link comes up exactly if the connection is there, an interface is known, networking is on and awake, and for Wi-Fi the radio is on and the SSID there: the end of the device path, or without a device the interface the settings name; success returns the active path of that interface, and a device path that of its link |
| `Activation.ActivationAppends` | src/network_manager/mod.rs:174-205 | the record appended is that of the connection on the device, primary exactly if there was no other, and only what was under its path is gone |
| `Activation.DeactivateConnection` | src/network_manager/mod.rs:400-437 | the link at the end of the record's first device path goes down and then the record goes, or nothing changes; an object that stays served is an error after both |
| `Activation.ActivateThenDeactivate` | src/network_manager/mod.rs:129-428 | together they take away what the interface had and nothing else, and bring down the link that came up exactly when its name needs no escaping |
| `Activation.ActiveConnectionForInterface` | src/runtime.rs:75-89 | the first record with a device path that ends in the name, or none if there is none |
| `Activation.FindsItself` | src/runtime.rs:75-89 | a device path ends in its own interface name exactly when the name is empty or needs no escaping |
| `Activation.FindsAnother` | src/runtime.rs:75-89 | a device path is found for every ending of its name |
| `Rollback.ActiveRecords` | src/network_manager/mod.rs:1015-1019 | the records found one by one under the paths listed before |
| `Rollback.RereadAll` | src/network_manager/mod.rs:1015-1019 | with distinct paths these are the whole table in its order |
| `Rollback.DropLinks` | src/network_manager/mod.rs:1033-1060 | the first walk makes exactly the calls for current records whose interface no target record uses |
| `Rollback.RaiseLinks` | src/network_manager/mod.rs:1062-1092 | the second walk makes exactly the calls for target records whose interface was not in use and whose connection is live |
| `Rollback.RollbackCheckpoint` | src/network_manager/mod.rs:1009-1129 | record, files, runtime and links in that order, with the whole state stated for an unknown checkpoint, for files that cannot be written, and for success: then each captured field is that of the record, and each device is reported with code 0 |
| `Rollback.RollbackLinks` | src/network_manager/mod.rs:1032-1092 | for every interface on its own, whether it is up afterwards, failing operations included |
| `Rollback.RollbackSparesShared` | src/network_manager/mod.rs:1032-1092 | no call concerns an interface used both before and in the checkpoint, and all downs precede all ups |
| `Rollback.RollbackReachesTarget` | src/network_manager/mod.rs:1032-1092 | if the links up were those of the current records and nothing stands in the way, those of the checkpoint are up afterwards |
| `Checkpoints.CheckpointCreate` | src/network_manager/mod.rs:261-315 | stores one record under a new path: the time, the devices (all of them for an empty list), the timeout, no deadline for a timeout of 0 and otherwise the timeout in milliseconds later, and the slice with the files; files that cannot be read spend the path and store nothing; an object that cannot be served leaves the record stored and untimed |
| `Checkpoints.CheckpointDestroy` | src/network_manager/mod.rs:318-326 | takes the checkpoint off the table, or reports that there is none |
| `Checkpoints.CheckTimeout` | src/network_manager/mod.rs:996-1004 | one round of the timer ends, rolls back or sleeps on by the reported timeout |
| `Checkpoints.CreateInFourSteps` | src/network_manager/mod.rs:261-314 | the four interleavable steps of a creation, taken together, store what the method stores |
| `Checkpoints.UntimedCheckpoint` | src/network_manager/mod.rs:281-314 | a checkpoint made from any initial state without a timeout and then adjusted has a deadline and, whatever follows, no timer |
| `Checkpoints.RollBackInThreeSteps` | src/network_manager/mod.rs:1020-1030 | the three interleavable steps of a rollback, taken together, restore what the method restores |
| `CheckpointFiles.RollbackMirrorsIff` | src/network_manager/mod.rs:275-279 | with records and files in step at the capture and at the reading, the files mirror the records a rollback leaves exactly when each captured record's name is, at the reading, that of a saved record with the same profile, or else a file with that profile; of a record not saved only the file's presence counts |
| `CheckpointFiles.EditWhileReading` | src/network_manager/mod.rs:275-279 | after one edit of a captured record in between they do exactly when the edit stays in memory or prints the same profile under the same name |
| `CheckpointFiles.RenameWhileReading` | src/network_manager/mod.rs:275-279 | a record on eth0, a checkpoint of eth0 and an Update to eth1 in between: the rollback leaves a record and a file that disagree |
| `CheckpointFiles.RollbackMirrors` | src/network_manager/mod.rs:1029-1030 | they do if the captured records were the same when the files were read and the files mirrored the records then; files of other records come back without them |
| `ProfileDirectory.Directory.Discover` | src/persistence.rs:44-49 | lists every file once |
| `ProfileDirectory.Directory.SnapshotConnectionFiles` | src/persistence.rs:51-58 | reads exactly the files that are there, each once |
| `ProfileDirectory.Directory.RemoveUnsaved` | src/persistence.rs:61-70 | removes every file that the snapshot does not name and that can be removed |
| `ProfileDirectory.Directory.WriteAll` | src/persistence.rs:72-84 | writes the files in order and stops at the first that cannot be written |
| `ProfileDirectory.Directory.RestoreConnectionFiles` | src/persistence.rs:60-85 | the exact files left, with failures, and exactly the snapshot without |
| `ProfileDirectory.SnapshotThenRestore` | src/persistence.rs:51-85 | restoring what was read brings the directories back, whatever happened to them meanwhile |
| `ProfileText.DecodeHex` | src/persistence.rs:127-135 | the loop over pairs gives the decoded bytes, or fails at the first pair that is not hexadecimal, odd ends and plus signs included |
| `ProfileText.WifiProfile` | src/persistence.rs:209-229 | pushes the settings, hidden and security parts of the profile |
| `ProfileText.ParseNetworkValue` | src/persistence.rs:268-288 | the walk with the current section finds what the specification finds: the first value of the key in the section, nothing after a line without an equals sign |
| `ProfileRoundTrips.IwdNameRoundTrip` | src/persistence.rs:251-266 | every SSID comes back from its encoded name |
| `ProfileRoundTrips.IwdNameInjective` | src/persistence.rs:251-266 | different SSIDs have different names |
| `ProfileRoundTrips.DecodeHexOf` | src/persistence.rs:260-263 | the hexadecimal text of any bytes decodes to them |
| `ProfileRoundTrips.RecoveredIff` | src/persistence.rs:271-285 | a value comes back through a profile line exactly when it is trimmed and has no line feed |
| `ProfileRoundTrips.ReadPair` | src/persistence.rs:268-288 | the value read behind a key is the first line of what was printed, trimmed |
| `ProfileRoundTrips.WifiPassphraseFound` | src/persistence.rs:140 | in every printed Wi-Fi profile the reader finds the passphrase's trimmed first line, or none if there is none |
| `ProfileRoundTrips.WifiLoads` | src/persistence.rs:87-184 | the whole record that a stored Wi-Fi profile loads as |
| `ProfileRoundTrips.WifiRoundTrip` | src/persistence.rs:209-229 | the SSID comes back exactly when it is not empty, the passphrase exactly when it is absent or recoverable; autoconnect becomes true and hidden is lost |
| `ProfileRoundTrips.SecondWifiRoundTrip` | src/persistence.rs:87-184 | saving a loaded Wi-Fi profile writes the same path, and loading that gives the same record: one round trip is the normal form |
| `ProfileRoundTrips.WiredRoundTrip` | src/persistence.rs:231-241 | a wired profile loads as one exactly when its uuid does not end in a slash; the interface name then comes back exactly when it is recoverable, and a missing one loads as `*` |
| `ProfileRoundTrips.NetdevLoadsAsWifi` | src/persistence.rs:243-249 | a virtual-device profile that loads is a Wi-Fi network; without a slash in the uuid it loads, named after its file, and without a line feed in the interface name it is open |
| `ProfileRoundTrips.LoadedWiredMovesWhenSaved` | src/persistence.rs:93-121 | the file a loaded wired profile is saved to is never the one it was loaded from |
| `ProfileLines.WifiLines` | src/persistence.rs:209-229 | the reader finds in a printed Wi-Fi profile whether to connect automatically and whether the network is hidden |
| `ProfileLines.WiredLines` | src/persistence.rs:231-241 | and in a wired one the interface, or `*`, and DHCP switched on |
| `ProfileLines.NetdevLines` | src/persistence.rs:243-249 | and in a virtual-device one the interface and the kind, which is the type but for 6lowpan; without an interface it is not printed |
| `ProfileLines.ProfilesGo` | src/persistence.rs:186-207 | which profile is printed for a record and under which name in which directory |
| `ProfileLines.IwdNameSays` | src/persistence.rs:251-266 | a plain SSID is its own name; any other becomes an equals sign and two lower-case hex digits for each byte |
| `ProfileLines.LoadsAs` | src/persistence.rs:87-184 | a file loads exactly if it is there, is UTF-8 and has a `.network` extension or a stem that is an SSID; what the record says of itself in either case |
| `ProfileLines.LineRead` | src/persistence.rs:268-288 | in the section that is read a line decides exactly if its key is the one sought, blanks around key and value aside |
| `ProfileLines.LineWithoutEquals` | src/persistence.rs:268-288 | a line there without an equals sign ends the search with nothing, whatever follows |
| `ProfileStore.PersistConnection` | src/persistence.rs:11-34 | writes the printed profile under the name the record asks for and sets the filename, or changes nothing |
| `ProfileStore.DeletePersistedConnection` | src/persistence.rs:33-42 | removes the record's file; one already gone counts as removed |
| `ProfileStore.PersistPreparedConnection` | src/network_manager/settings_connection.rs:346-364 | nothing for an unsaved record; otherwise the new file, and the old one gone if the name changed |
| `ProfileStore.AddConnectionInner` | src/network_manager/settings.rs:245-281 | a record needs a uuid and a type; the path is spent even when the file cannot be written; otherwise file and record are there |
| `ProfileStore.ApplyRuntimeConnection` | src/network_manager/settings_connection.rs:336-344 | overwrites the record under the path |
| `ProfileStore.ChangeConnection` | src/network_manager/settings_connection.rs:56-255 | Update, UpdateUnsaved, Save, ClearSecrets and Update2: refusals in the program's order, then files, then the record |
| `ProfileStore.DeleteConnection` | src/network_manager/settings_connection.rs:81-100 | removes the file and then the record, or changes nothing |
| `ProfileOutcomes.EditSucceeds` | src/network_manager/settings_connection.rs:56-255 | an operation that succeeds changes that one record as asked and counts one version; uuid and type are those the settings name, or stay; an unsaved record leaves the files alone, a saved one has its profile in its file and its old file is gone |
| `ProfileOutcomes.EditFails` | src/network_manager/settings_connection.rs:56-255 | an operation that fails changes no record, and no file unless the old one could not be removed: then exactly the new file has been written |
| `ProfileOutcomes.EditSucceedsIff` | src/network_manager/settings_connection.rs:56-255 | an operation succeeds exactly if the record is there, flags and version are in order, and the record stays unsaved or can be written and its old file removed |
| `ProfileOutcomes.AddSucceedsIff` | src/network_manager/settings.rs:245-281 | adding succeeds exactly if uuid and type are named and the record is not to be saved or can be written; a failure changes nothing but, past the first two, the spent path |
| `ProfileOutcomes.AddSucceeds` | src/network_manager/settings.rs:245-281 | the new record is the last one, the user's own, with uuid, type and settings as given; its file holds its profile, or no file has changed |
| `ProfileOutcomes.DeleteSucceeds` | src/network_manager/settings_connection.rs:81-100 | deleting succeeds exactly if the record is there and its file can be removed or is gone, and takes away both and nothing else |
| `ProfileOutcomes.UnsavedThenSave` | src/network_manager/settings_connection.rs:121-255 | changing any connection in memory and then saving it has the outcome of one Update2 to disk, and for a saved one of one Update, and if it succeeds leaves the same records and files |
| `ProfileOutcomes.LastUpdateWins` | src/network_manager/settings_connection.rs:172-198 | of two Updates in a row that take nobody's file, the last naming uuid and type, records and files are those of the last alone |
| `ProfileOutcomes.SecondClientIsRefused` | src/network_manager/settings_connection.rs:217-225 | of two clients with one version the one that calls Update2 after the other has written is refused and changes nothing |
| `ProfileOutcomes.PersistThenLoad` | src/persistence.rs:11-34 | reading the file just written gives what the printed profile loads as |
| `ProfileOutcomes.SavedWifiLoadsBack` | src/persistence.rs:11-184 | saving a Wi-Fi connection and loading its file gives SSID and passphrase back exactly when the SSID is not empty and the passphrase recoverable |
| `ProfileOutcomes.AddThenDelete` | src/network_manager/settings.rs:245-281 | adding and deleting a connection gives back records and files; only the spent path and the version tell |
| `ProfileMirror.FilenamesCollide` | src/persistence.rs:186-207 | two records ask for one file exactly when both are Wi-Fi with one SSID and the same presence of a passphrase, or both are not, with one uuid and the same extension |
| `ProfileMirror.StartMirrors` | src/network_manager/settings.rs:245-281 | before any user record is there the files mirror the records, all of them belonging to others |
| `ProfileMirror.EditKeepsMirror` | src/network_manager/settings_connection.rs:346-364 | a safe operation keeps the mirror of records and files |
| `ProfileMirror.EditKeepsMirrorIff` | src/network_manager/settings_connection.rs:346-364 | an operation whose old file is not stuck keeps the mirror exactly when its target name is its own or unused |
| `ProfileMirror.StuckFileBreaksMirror` | src/network_manager/settings_connection.rs:354-362 | when the old file is stuck no record changes but the new file is written, which keeps the mirror exactly when that file was there with the same text or belongs to a record not saved |
| `ProfileMirror.AddKeepsMirrorIff` | src/network_manager/settings.rs:245-281 | adding a record keeps the mirror exactly when it is not saved, cannot be written, or gets a name that no file has |
| `ProfileMirror.SecondRecordTakesTheFile` | src/persistence.rs:186-207 | adding a saved record that asks for another's file breaks it |
| `ProfileMirror.RemoveKeepsMirror` | src/network_manager/settings_connection.rs:81-100 | deleting a record keeps the mirror, whether or not the file can be removed |
| `ProfileMirror.RunKeepsMirror` | src/network_manager/settings_connection.rs:346-364 | over any run of such operations, whatever fails during each, each saved record's file holds exactly its printed profile, no two records share a file, and no other file has appeared, changed or gone |
| `Import.ImportConnections` | src/network_manager/settings.rs:308-356 | the walk over the names upserts each record that loads and collects the names that do not |
| `Import.ImportOne` | src/network_manager/settings.rs:319-349 | a loaded record replaces the one with its uuid in place, or is added under a new path and announced |
| `Import.ImportAgain` | src/network_manager/settings.rs:308-356 | importing any of the same unchanged files again changes no record, spends no path and announces nothing |
| `Import.ListedTwice` | src/network_manager/settings.rs:308-356 | listing files more than once is the same as listing them once |
| `Import.ImportedAreThere` | src/network_manager/settings.rs:319-349 | after an import every file that loads has its record, exactly as loaded, and every other record is where and what it was |
| `Import.ImportKeepsFilesApartIff` | src/network_manager/settings.rs:319-349 | an import keeps one record for each file exactly when every record whose file it lists is the first with an imported uuid of a listed file |
| `Import.PruneMissingUserConnections` | src/network_manager/settings.rs:358-391 | collects the orphans first and removes them one by one; every record that no user made, that is unsaved, has no file or has a listed one stays, in its order, and no other does |
| `Import.PruneLeavesSurvivors` | src/network_manager/settings.rs:358-391 | the same of the specification, from any table with distinct paths |
| `Import.PruneRemovesOrphans` | src/network_manager/settings.rs:358-391 | and the signals name exactly the records that went |
| `Import.ReloadConnections` | src/network_manager/settings.rs:125-158 | imports every file, prunes against the same list if all of them load, and ends with a sync if the backends answer |
| `Import.ReloadMatchesFiles` | src/network_manager/settings.rs:125-144 | when every file loads, before the closing sync every file has its record and every saved user record with a filename has its file |
| `Import.ReloadLeavesTheRest` | src/network_manager/settings.rs:125-144 | every record that survives a pruning and is not replaced by a file is there after the reload as it was, and any two of them in the same order |
| `Import.FailuresMembers` | src/network_manager/settings.rs:308-356 | exactly the names that do not load are reported |

## Left out

- Sync.SyncBackends: the early exits on object-server errors are not modelled. It requires distinct device paths, which every reachable state has (`ReadyUnderInterleaving`).
- Links.ClearActiveConnectionsOfTypes: requires distinct paths of active connections, which every reachable state has (`ReadyUnderInterleaving`); so does `RollbackCheckpoint`.
- SystemCheckpoints.RollbackReturnsFiles: assumes that the file operations of that rollback succeed; `RollbackCheckpoint` states what happens when they do not.
- ProfileMirror.RunKeepsMirror: takes each operation as one step, although the service reads the record, writes the file and stores the record in three (`InterleavedEdits` says what two of them leave when they cross); and it concerns user records, because the reconciler gives backend records filenames it never writes.
- Activation.ActivateConnection: errors from the change signals sent after the record is added are not modelled; the same goes for the other operations.
- The counters are unbounded: 64-bit wrap-around of ids and versions is not modelled. Deadlines saturate at 64 bits as in the program.
- Reading the profile directories is one access in the interleaved model, not one for each file, and so is restoring them.
- The object server, property getters and change signals on the bus; only added and removed objects are logged.
- The clients for networkd, iwd and rtnetlink, scanning, hidden networks, secret agents: their answers are inputs.
- Permissions, creation of directories, symbolic links and two spellings of one path: the files are a table from path text to contents.
- The name-based UUID is any function; no property here needs it to be injective, but what a stored connection says is stated for links and networks that share their uuid with no other (`WiredRecordSays`, `WifiRecordSays`).
- SyncRecords.WiredRecordSays: excludes the types `connection`, `ipv4` and `ipv6`, which no link has.
- Lookup tables on link kind and type, capability and security flags, signal strength: a link carries their answers.
- The contents of IP and DHCP configs; only whether a config path is present is kept.
- Registered agents, signal-level agents, logging, DNS and radio switches, which no step here reads, except the wireless switch, a parameter of activation.
- The record's flags field, which is always zero.
- `Device.Delete`, AddConnection2's flag checks, and `state_from_runtime`, which would add only easy members.
