/** Rolling a checkpoint back: the record, the files, the runtime and then the links. */
module Rollback {
  import opened Text
  import opened Tables
  import opened RuntimeState
  import opened RuntimeStore
  import opened ProfileDirectory
  import opened Links

  // ------------------------------------------------------------------ the link calls

  function DropCall(a: ActiveConnection, target: Table<ActiveConnection>): seq<LinkCall> {
    if Uses(target, InterfaceOrEmpty(a)) then [] else [Down(InterfaceOrEmpty(a))]
  }

  /** Interfaces of current records that no target record uses go down. */
  function DropCalls(current: Table<ActiveConnection>, target: Table<ActiveConnection>): seq<LinkCall> {
    if current == [] then []
    else
      var rest := DropCalls(current[..|current| - 1], target);
      rest + DropCall(current[|current| - 1].value, target)
  }

  /** A Wi-Fi connection without an SSID fails before anything is asked of iwd. */
  predicate CanRaise(connections: Table<Connection>, path: string) {
    match Lookup(connections, path)
    case None => false
    case Some(e) => e.value.connectionType != WIFI || e.value.Ssid().Some?
  }

  function RaiseCall(a: ActiveConnection, current: Table<ActiveConnection>,
                     connections: Table<Connection>): seq<LinkCall> {
    if !Uses(current, InterfaceOrEmpty(a)) && CanRaise(connections, a.connection) then [Up(InterfaceOrEmpty(a))] else []
  }

  /** Interfaces of target records that no current record uses go up, if their connection is live. */
  function RaiseCalls(target: Table<ActiveConnection>, current: Table<ActiveConnection>, connections: Table<Connection>)
    : seq<LinkCall>
  {
    if target == [] then []
    else
      var rest := RaiseCalls(target[..|target| - 1], current, connections);
      rest + RaiseCall(target[|target| - 1].value, current, connections)
  }

  // ------------------------------------------------------------------ the rollback

  /** Looking the active connections up one by one under the paths listed before. */
  function Reread(t: Table<ActiveConnection>, paths: seq<string>): Table<ActiveConnection> {
    if paths == [] then []
    else
      var rest := Reread(t, paths[..|paths| - 1]);
      match Lookup(t, paths[|paths| - 1])
      case Some(e) => rest + [e]
      case None => rest
  }

  lemma {:induction false} RereadSnoc(t: Table<ActiveConnection>, paths: seq<string>, i: nat)
    requires i < |paths|
    ensures Reread(t, paths[..i + 1]) == match Lookup(t, paths[i])
                                         case Some(e) => Reread(t, paths[..i]) + [e]
                                         case None => Reread(t, paths[..i])
  {
    assert paths[..i + 1][..i] == paths[..i];
  }

  lemma {:induction false} PathAt(t: Table<ActiveConnection>, i: nat)
    requires i < |t|
    ensures |Paths(t)| == |t| && Paths(t)[i] == t[i].path
  {
  }

  lemma {:induction false} SliceSnoc<V>(t: seq<V>, n: nat)
    requires 0 < n <= |t|
    ensures t[..n] == t[..n - 1] + [t[n - 1]]
  {
  }

  lemma {:induction false} RereadPrefix(t: Table<ActiveConnection>, n: nat)
    requires Distinct(t) && n <= |t| == |Paths(t)|
    ensures Reread(t, Paths(t)[..n]) == t[..n]
  {
    if n > 0 {
      hide Reread, Lookup, Distinct, Paths, Position;
      RereadPrefix(t, n - 1);
      RereadSnoc(t, Paths(t), n - 1);
      PathAt(t, n - 1);
      DistinctLookup(t, n - 1);
      SliceSnoc(t, n);
    }
  }

  lemma {:induction false} RereadAll(t: Table<ActiveConnection>)
    requires Distinct(t)
    ensures Reread(t, Paths(t)) == t
  {
    RereadPrefix(t, |t|);
    assert Paths(t)[..|t|] == Paths(t) && t[..|t|] == t;
  }

  method ActiveRecords(rt: Runtime) returns (records: Table<ActiveConnection>)
    ensures records == Reread(rt.activeConnections, Paths(rt.activeConnections))
  {
    hide Lookup;
    records := [];
    var paths := Paths(rt.activeConnections);
    for i := 0 to |paths|
      invariant records == Reread(rt.activeConnections, paths[..i])
    {
      RereadSnoc(rt.activeConnections, paths, i);
      var record := Lookup(rt.activeConnections, paths[i]);
      if record.Some? {
        records := records + [record.value];
      }
    }
    assert paths[..|paths|] == paths;
  }

  lemma {:induction false} DropStep(s: LinkState, current: Table<ActiveConnection>, target: Table<ActiveConnection>,
                                    broken: Broken, i: nat)
    requires i < |current|
    ensures AfterCalls(s, DropCalls(current[..i + 1], target), broken)
         == AfterCalls(AfterCalls(s, DropCalls(current[..i], target), broken),
                       DropCall(current[i].value, target), broken)
  {
    assert current[..i + 1][..i] == current[..i];
    CallsInTwoParts(s, DropCalls(current[..i], target), DropCall(current[i].value, target), broken);
    hide AfterCalls;
  }

  lemma {:induction false} RaiseStep(s: LinkState, target: Table<ActiveConnection>, current: Table<ActiveConnection>,
                                     connections: Table<Connection>, broken: Broken, i: nat)
    requires i < |target|
    ensures AfterCalls(s, RaiseCalls(target[..i + 1], current, connections), broken)
         == AfterCalls(AfterCalls(s, RaiseCalls(target[..i], current, connections), broken),
                       RaiseCall(target[i].value, current, connections), broken)
  {
    assert target[..i + 1][..i] == target[..i];
    CallsInTwoParts(s, RaiseCalls(target[..i], current, connections), RaiseCall(target[i].value, current, connections),
                    broken);
    hide AfterCalls;
  }

  lemma {:induction false} NoWalk(s: LinkState, t: Table<ActiveConnection>, other: Table<ActiveConnection>,
                                  connections: Table<Connection>, broken: Broken)
    ensures AfterCalls(s, DropCalls(t[..0], other), broken) == s
    ensures AfterCalls(s, RaiseCalls(t[..0], other, connections), broken) == s
    ensures t[..|t|] == t
  {
  }

  method DropLinks(links: LinkControl, current: Table<ActiveConnection>, target: Table<ActiveConnection>)
    modifies links
    ensures links.Now() == AfterCalls(old(links.Now()), DropCalls(current, target), links.broken)
  {
    hide AfterCalls, DropCalls, AfterCall, Uses, InterfaceOrEmpty;
    NoWalk(links.Now(), current, target, [], links.broken);
    for i := 0 to |current|
      invariant links.Now() == AfterCalls(old(links.Now()), DropCalls(current[..i], target), links.broken)
    {
      DropStep(old(links.Now()), current, target, links.broken, i);
      var interfaceName := InterfaceOrEmpty(current[i].value);
      OneCall(links.Now(), Down(interfaceName), links.broken);
      if Uses(target, interfaceName) {
        continue;
      }
      var _ := links.Call(Down(interfaceName));
    }
  }

  method RaiseLinks(rt: Runtime, links: LinkControl, target: Table<ActiveConnection>, current: Table<ActiveConnection>)
    modifies links
    ensures links.Now() == AfterCalls(old(links.Now()), RaiseCalls(target, current, rt.connections), links.broken)
  {
    hide AfterCalls, RaiseCalls, AfterCall, Uses, InterfaceOrEmpty, Lookup;
    NoWalk(links.Now(), target, current, rt.connections, links.broken);
    for i := 0 to |target|
      invariant links.Now()
             == AfterCalls(old(links.Now()), RaiseCalls(target[..i], current, rt.connections), links.broken)
    {
      RaiseStep(old(links.Now()), target, current, rt.connections, links.broken, i);
      var interfaceName := InterfaceOrEmpty(target[i].value);
      OneCall(links.Now(), Up(interfaceName), links.broken);
      if Uses(current, interfaceName) {
        continue;
      }
      var connection := Lookup(rt.connections, target[i].value.connection);
      if connection.Some? && (connection.value.value.connectionType != WIFI || connection.value.value.Ssid().Some?) {
        var _ := links.Call(Up(interfaceName));
      }
    }
  }

  /** The links after the two walks. */
  function AfterRelink(s: LinkState, broken: Broken, current: Table<ActiveConnection>, snapshot: Snapshot): LinkState {
    var target := snapshot.activeConnections;
    AfterCalls(AfterCalls(s, DropCalls(current, target), broken), RaiseCalls(target, current, snapshot.connections),
               broken)
  }

  /** The reply: every device of the checkpoint, with the code of success. */
  function Successes(devices: seq<string>): seq<(string, nat)> {
    seq(|devices|, i requires 0 <= i < |devices| => (devices[i], 0))
  }

  /** The checkpoint record goes first and is spent even when the files cannot be restored; only
      after the files does the runtime go back, and only then do the links follow. */
  method RollbackCheckpoint(rt: Runtime, dir: Directory, links: LinkControl, path: string)
    returns (r: Result<seq<(string, nat)>>)
    requires Distinct(rt.activeConnections)
    modifies rt, dir, links
    ensures var record := Lookup(old(rt.checkpoints), path);
            var removed := old(rt.Contents()).(checkpoints := Without(old(rt.checkpoints), path));
            match record
            case None => r == Err("unknown checkpoint") && rt.Contents() == old(rt.Contents())
                         && dir.files == old(dir.files) && links.Now() == old(links.Now())
            case Some(e) =>
              var snapshot := e.value.snapshot;
              var k := FirstUnwritable(snapshot.persistedFiles, dir.unwritable);
              && dir.files == Kept(old(dir.files), SavedPaths(snapshot.persistedFiles), dir.undeletable)
                              + FilesOf(snapshot.persistedFiles[..k])
              && (k < |snapshot.persistedFiles| ==>
                    r.Err? && rt.Contents() == removed && links.Now() == old(links.Now()))
              && (k == |snapshot.persistedFiles| ==>
                    && r == Ok(Successes(e.value.devices))
                    && rt.Contents() == AfterRestore(removed, snapshot)
                    && links.Now() == AfterRelink(old(links.Now()), links.broken, old(rt.activeConnections), snapshot))
    ensures r.Ok? ==>
              && Lookup(old(rt.checkpoints), path).Some?
              && var record := Lookup(old(rt.checkpoints), path).value.value;
                 && |r.value| == |record.devices|
                 && (forall i :: 0 <= i < |record.devices| ==> r.value[i] == (record.devices[i], 0))
                 && rt.hostname == record.snapshot.hostname
                 && rt.networkingEnabled == record.snapshot.networkingEnabled
                 && rt.sleeping == record.snapshot.sleeping
                 && rt.deviceManaged == record.snapshot.deviceManaged
                 && rt.connections == record.snapshot.connections
                 && rt.activeConnections == record.snapshot.activeConnections
  {
    hide Reread, Paths, DropCalls, RaiseCalls, AfterCalls, Kept, FilesOf, Without, Lookup, Distinct;
    var current := ActiveRecords(rt);
    RereadAll(rt.activeConnections);
    WithoutAbsent(rt.checkpoints, path);
    var record := rt.RemoveCheckpoint(path);
    if record.None? {
      return Err("unknown checkpoint");
    }
    var snapshot := record.value.value.snapshot;
    var restored := dir.RestoreConnectionFiles(snapshot.persistedFiles);
    if !restored {
      return Err("the files cannot be restored");
    }
    rt.RestoreCheckpointSnapshot(snapshot);
    DropLinks(links, current, snapshot.activeConnections);
    RaiseLinks(rt, links, snapshot.activeConnections, current);
    r := Ok(Successes(record.value.value.devices));
  }

  // ------------------------------------------------------------------ what the walks do

  lemma {:induction false} DropMembers(current: Table<ActiveConnection>, target: Table<ActiveConnection>)
    ensures forall c :: c in DropCalls(current, target) <==>
              exists e :: e in current && !Uses(target, InterfaceOrEmpty(e.value))
                          && c == Down(InterfaceOrEmpty(e.value))
  {
    hide Uses, InterfaceOrEmpty;
    if current != [] {
      assert current == current[..|current| - 1] + [current[|current| - 1]];
      DropMembers(current[..|current| - 1], target);
    }
  }

  lemma {:induction false} RaiseMembers(target: Table<ActiveConnection>, current: Table<ActiveConnection>,
                                        connections: Table<Connection>)
    ensures forall c :: c in RaiseCalls(target, current, connections) <==>
              exists e :: e in target && !Uses(current, InterfaceOrEmpty(e.value))
                          && CanRaise(connections, e.value.connection)
                          && c == Up(InterfaceOrEmpty(e.value))
  {
    hide Uses, InterfaceOrEmpty, CanRaise;
    if target != [] {
      assert target == target[..|target| - 1] + [target[|target| - 1]];
      RaiseMembers(target[..|target| - 1], current, connections);
    }
  }

  /** The first device of some record is on this interface. */
  predicate RunsOn(t: Table<ActiveConnection>, name: string) {
    exists e :: e in t && e.value.devices != [] && LastSegment(e.value.devices[0]) == name
  }

  /** The first device of the record is on this interface, or it has no device and the name is empty. */
  predicate IsFor(a: ActiveConnection, name: string) {
    if a.devices == [] then name == "" else LastSegment(a.devices[0]) == name
  }

  /** Its connection is among these; if that is Wi-Fi, it has an SSID. */
  predicate CanComeUp(a: ActiveConnection, connections: Table<Connection>) {
    var c := Lookup(connections, a.connection);
    c.Some? && (c.value.value.connectionType == "802-11-wireless" ==> c.value.value.Ssid().Some?)
  }

  lemma {:induction false} UsesIsRunsOn(t: Table<ActiveConnection>, name: string)
    ensures Uses(t, name) <==> RunsOn(t, name)
  {
    hide LastSegment;
    if Uses(t, name) {
      var i :| 0 <= i < |t| && FirstInterface(t[i].value) == Some(name);
      assert t[i] in t;
    }
    if RunsOn(t, name) {
      var e :| e in t && e.value.devices != [] && LastSegment(e.value.devices[0]) == name;
      var i :| 0 <= i < |t| && t[i] == e;
      assert FirstInterface(t[i].value) == Some(name);
    }
  }

  lemma {:induction false} InterfaceIsFor(a: ActiveConnection, connections: Table<Connection>, name: string)
    ensures InterfaceOrEmpty(a) == name <==> IsFor(a, name)
    ensures CanRaise(connections, a.connection) <==> CanComeUp(a, connections)
  {
    hide LastSegment, Lookup, FromUtf8;
  }

  lemma {:induction false} DropsNamed(current: Table<ActiveConnection>, target: Table<ActiveConnection>, name: string)
    ensures Down(name) in DropCalls(current, target)
            <==> !RunsOn(target, name) && exists e :: e in current && IsFor(e.value, name)
  {
    DropMembers(current, target);
    UsesIsRunsOn(target, name);
    forall e: Entry<ActiveConnection> ensures InterfaceOrEmpty(e.value) == name <==> IsFor(e.value, name) {
      InterfaceIsFor(e.value, [], name);
    }
    hide DropCalls, Uses, RunsOn, InterfaceOrEmpty, IsFor;
  }

  lemma {:induction false} RaisesNamed(target: Table<ActiveConnection>, current: Table<ActiveConnection>,
                                       connections: Table<Connection>, name: string)
    ensures Up(name) in RaiseCalls(target, current, connections)
            <==> !RunsOn(current, name)
                 && exists e :: e in target && IsFor(e.value, name) && CanComeUp(e.value, connections)
  {
    RaiseMembers(target, current, connections);
    UsesIsRunsOn(current, name);
    forall e: Entry<ActiveConnection>
      ensures InterfaceOrEmpty(e.value) == name <==> IsFor(e.value, name)
      ensures CanRaise(connections, e.value.connection) <==> CanComeUp(e.value, connections)
    {
      InterfaceIsFor(e.value, connections, name);
    }
    hide RaiseCalls, Uses, RunsOn, InterfaceOrEmpty, IsFor, CanRaise, CanComeUp;
  }

  /** Which interfaces are up after a rollback, for each interface on its own: one that only the target
      uses and that can be brought up is up if a target record for it has a live connection; one that
      only the current records use and that can be brought down is down; any other is as it was. */
  lemma {:induction false} RollbackLinks(s: LinkState, broken: Broken, current: Table<ActiveConnection>,
                                         snapshot: Snapshot, name: string)
    ensures var target := snapshot.activeConnections;
            name in AfterRelink(s, broken, current, snapshot).up <==>
              if name !in broken.up && !RunsOn(current, name)
                 && (exists e :: e in target && IsFor(e.value, name) && CanComeUp(e.value, snapshot.connections))
              then true
              else if name !in broken.down && (exists e :: e in current && IsFor(e.value, name))
                      && !RunsOn(target, name) then false
              else name in s.up
  {
    var target := snapshot.activeConnections;
    var drops, raises := DropCalls(current, target), RaiseCalls(target, current, snapshot.connections);
    DropMembers(current, target);
    RaiseMembers(target, current, snapshot.connections);
    DropsNamed(current, target, name);
    RaisesNamed(target, current, snapshot.connections, name);
    hide DropCalls, RaiseCalls, Uses, CanRaise, InterfaceOrEmpty, RunsOn, IsFor, CanComeUp;
    AllDown(s, drops, broken);
    AllUp(AfterCalls(s, drops, broken), raises, broken);
    assert name in Names(drops) <==> Down(name) in drops;
    assert name in Names(raises) <==> Up(name) in raises;
  }

  /** No call of a rollback concerns an interface that is used both before and in the checkpoint,
      and every interface goes down before any goes up. */
  lemma {:induction false} RollbackSparesShared(s: LinkState, broken: Broken, current: Table<ActiveConnection>,
                                                snapshot: Snapshot)
    ensures var target := snapshot.activeConnections;
            exists drops, raises ::
              && AfterRelink(s, broken, current, snapshot).calls == s.calls + drops + raises
              && (forall c :: c in drops ==> c.Down? && !RunsOn(target, c.name))
              && (forall c :: c in raises ==> c.Up? && !RunsOn(current, c.name))
  {
    var target := snapshot.activeConnections;
    var drops, raises := DropCalls(current, target), RaiseCalls(target, current, snapshot.connections);
    DropMembers(current, target);
    RaiseMembers(target, current, snapshot.connections);
    hide DropCalls, RaiseCalls, Uses, CanRaise, InterfaceOrEmpty;
    forall c | c in drops ensures !RunsOn(target, c.name) {
      UsesIsRunsOn(target, c.name);
    }
    forall c | c in raises ensures !RunsOn(current, c.name) {
      UsesIsRunsOn(current, c.name);
    }
    AllDown(s, drops, broken);
    AllUp(AfterCalls(s, drops, broken), raises, broken);
  }

  /** When the links up are those of the current records and nothing stands in the way, a
      rollback leaves up exactly the links of the checkpoint. */
  lemma {:induction false} RollbackReachesTarget(s: LinkState, current: Table<ActiveConnection>, snapshot: Snapshot)
    requires forall name :: name in s.up <==> RunsOn(current, name)
    requires forall e :: e in current + snapshot.activeConnections ==> e.value.devices != []
    requires forall e :: e in snapshot.activeConnections ==> CanComeUp(e.value, snapshot.connections)
    ensures var up := AfterRelink(s, Broken({}, {}), current, snapshot).up;
            forall name :: name in up <==> RunsOn(snapshot.activeConnections, name)
  {
    var target := snapshot.activeConnections;
    assert forall e :: e in current || e in target ==> e in current + target;
    forall name ensures name in AfterRelink(s, Broken({}, {}), current, snapshot).up <==> RunsOn(target, name) {
      RollbackLinks(s, Broken({}, {}), current, snapshot, name);
      assert RunsOn(current, name) <==> exists e :: e in current && IsFor(e.value, name);
      assert RunsOn(target, name) <==> exists e :: e in target && IsFor(e.value, name);
      hide RunsOn, IsFor, CanComeUp;
    }
  }
}
