/** Loading profile files into the runtime, and dropping the records whose files are gone. */
module Import {
  import opened Text
  import opened ObjectPaths
  import opened Tables
  import opened RuntimeState
  import opened RuntimeStore
  import opened Backends
  import opened Sync
  import opened SyncConnectionFacts
  import opened ProfileText
  import opened ProfileDirectory
  import opened ProfileStore
  import opened ProfileMirror

  /** A loaded record asks for its uuid just as a backend asks for one. */
  function WantedOf(c: Connection): Wanted {
    Wanted(c.uuid, c.connectionType, c.filename, c.origin, c.settings)
  }

  /** The records of the files that load, in the order of the list. */
  function Loaded(places: Places, files: FileMap, names: seq<string>): seq<Wanted> {
    if names == [] then []
    else
      var rest := Loaded(places, files, names[..|names| - 1]);
      match LoadFromPath(places, files, names[|names| - 1])
      case Ok(c) => rest + [WantedOf(c)]
      case Err(_) => rest
  }

  /** The names that do not load, in the order of the list. */
  function Failures(places: Places, files: FileMap, names: seq<string>): seq<string> {
    if names == [] then []
    else
      var rest := Failures(places, files, names[..|names| - 1]);
      if LoadFromPath(places, files, names[|names| - 1]).Ok? then rest else rest + [names[|names| - 1]]
  }

  method ImportConnections(rt: Runtime, dir: Directory, places: Places, names: seq<string>)
    returns (failures: seq<string>, log: seq<Signal>)
    modifies rt
    ensures Synced(rt.Contents(), log) == UpsertWishes(old(rt.Contents()), Loaded(places, dir.files, names))
    ensures failures == Failures(places, dir.files, names)
  {
    hide LoadFromPath;
    failures, log := [], [];
    ghost var done: seq<Wanted> := [];
    for i := 0 to |names|
      invariant done == Loaded(places, dir.files, names[..i])
      invariant Synced(rt.Contents(), log) == UpsertWishes(old(rt.Contents()), done)
      invariant failures == Failures(places, dir.files, names[..i])
    {
      assert names[..i + 1][..i] == names[..i];
      var loaded := LoadFromPath(places, dir.files, names[i]);
      if loaded.Err? {
        failures := failures + [names[i]];
      } else {
        LoadedIsPlain(places, dir.files, names[i]);
        log := ImportOne(rt, loaded.value, log);
        UpsertWishesSnoc(old(rt.Contents()), done, WantedOf(loaded.value));
        done := done + [WantedOf(loaded.value)];
      }
    }
    assert names[..|names|] == names;
  }

  method ImportOne(rt: Runtime, c: Connection, log: seq<Signal>) returns (out: seq<Signal>)
    requires Realized(WantedOf(c)) == c
    modifies rt
    ensures Synced(rt.Contents(), out) == UpsertWanted(Synced(old(rt.Contents()), log), WantedOf(c))
  {
    out := log;
    var existing := LookupUuid(rt.connections, c.uuid);
    var path;
    if existing.Some? {
      path := existing.value.path;
      assert path in PathSet(rt.connections);
    } else {
      path := rt.NextConnectionPath();
    }
    if existing.Some? {
      var _ := rt.UpdateConnection(path, _ => c);
    } else {
      rt.AddConnection(Entry(path, c));
      out := out + [Added(Object(Connections, path))];
    }
  }

  lemma {:induction false} LoadedIsPlain(places: Places, files: FileMap, name: string)
    requires LoadFromPath(places, files, name).Ok?
    ensures var c := LoadFromPath(places, files, name).value;
            Realized(WantedOf(c)) == c && c.uuid == ImportedUuid(name) && c.filename == name && c.origin == User
  {
    hide Find, Lines, SsidOfStem, FileName, FileStem, Extension;
  }

  // ------------------------------------------------------------------ importing again

  lemma {:induction false} ImportedUuidInjective(a: string, b: string)
    ensures ImportedUuid(a) == ImportedUuid(b) <==> a == b
  {
    assert ImportedUuid(a)[9..] == a && ImportedUuid(b)[9..] == b;
  }

  /** The uuids wanted are those of the files that load, and each is wanted as its file says. */
  lemma {:induction false} LoadedMembers(places: Places, files: FileMap, names: seq<string>)
    ensures forall name :: name in names && LoadFromPath(places, files, name).Ok?
              ==> LastWish(Loaded(places, files, names), ImportedUuid(name))
                   == Some(WantedOf(LoadFromPath(places, files, name).value))
    ensures forall uuid :: uuid in Uuids(Loaded(places, files, names))
              ==> exists name :: name in names && LoadFromPath(places, files, name).Ok? && uuid == ImportedUuid(name)
  {
    hide LoadFromPath, ImportedUuid;
    if names != [] {
      var front, last := names[..|names| - 1], names[|names| - 1];
      assert names == front + [last];
      LoadedMembers(places, files, front);
      var before, ws := Loaded(places, files, front), Loaded(places, files, names);
      if LoadFromPath(places, files, last).Ok? {
        LoadedIsPlain(places, files, last);
        assert ws[..|ws| - 1] == before;
        UuidsSnoc(ws);
        forall name | name in names ensures ImportedUuid(name) == ImportedUuid(last) ==> name == last {
          ImportedUuidInjective(name, last);
        }
      }
    }
  }

  /** Importing any of the same unchanged files once more, in any order and any number of times,
      leaves the connection list as it is, spends no path and announces nothing. */
  lemma {:induction false} ImportAgain(places: Places, files: FileMap, s: State, names: seq<string>, again: seq<string>)
    requires ConnectionsReady(s)
    requires forall name :: name in again ==> name in names
    ensures var once := UpsertWishes(s, Loaded(places, files, names)).state;
            var twice := UpsertWishes(once, Loaded(places, files, again));
            twice.log == [] && twice.state == once.(versionId := twice.state.versionId)
  {
    hide LoadFromPath, ImportedUuid;
    var ws, more := Loaded(places, files, names), Loaded(places, files, again);
    var once := UpsertWishes(s, ws).state;
    UpsertWishesGrows(s, ws);
    UpsertWishesGrant(s, ws);
    LoadedMembers(places, files, names);
    LoadedMembers(places, files, again);
    forall uuid | uuid in Uuids(more) ensures Granted(once.connections, more, uuid) {
      assert LastWish(more, uuid) == LastWish(ws, uuid);
      assert Granted(once.connections, ws, uuid);
    }
    UpsertWishesGrows(once, more);
    UpsertWishesGrant(once, more);
    GrownGranted(once.connections, more, UpsertWishes(once, more).state.connections);
    UpsertWishesFrame(once, more);
  }

  /** The announcements so far do not change what a wish does to the state. */
  lemma {:induction false} WishIgnoresLog(y: Synced, z: Synced, w: Wanted)
    requires y.state == z.state
    ensures UpsertWanted(y, w).state == UpsertWanted(z, w).state
  {
  }

  lemma {:induction false} WishesInTwoParts(s: State, ws: seq<Wanted>, more: seq<Wanted>)
    ensures UpsertWishes(s, ws + more).state == UpsertWishes(UpsertWishes(s, ws).state, more).state
  {
    hide UpsertWanted;
    if more == [] {
      assert ws + more == ws;
    } else {
      var front, last := more[..|more| - 1], more[|more| - 1];
      WishesInTwoParts(s, ws, front);
      assert ws + more == (ws + front) + [last] && more == front + [last];
      UpsertWishesSnoc(s, ws + front, last);
      UpsertWishesSnoc(UpsertWishes(s, ws).state, front, last);
      WishIgnoresLog(UpsertWishes(s, ws + front), UpsertWishes(UpsertWishes(s, ws).state, front), last);
    }
  }

  lemma {:induction false} LoadedConcat(places: Places, files: FileMap, names: seq<string>, more: seq<string>)
    ensures Loaded(places, files, names + more) == Loaded(places, files, names) + Loaded(places, files, more)
  {
    hide LoadFromPath;
    if more == [] {
      assert names + more == names;
    } else {
      assert (names + more)[..|names + more| - 1] == names + more[..|more| - 1];
      LoadedConcat(places, files, names, more[..|more| - 1]);
    }
  }

  /** Listing a file more than once in one import is the same as listing it once. */
  lemma {:induction false} ListedTwice(places: Places, files: FileMap, s: State, names: seq<string>, again: seq<string>)
    requires ConnectionsReady(s)
    requires forall name :: name in again ==> name in names
    ensures var once, longer := UpsertWishes(s, Loaded(places, files, names)).state,
                                UpsertWishes(s, Loaded(places, files, names + again)).state;
            longer == once.(versionId := longer.versionId)
  {
    ImportAgain(places, files, s, names, again);
    LoadedConcat(places, files, names, again);
    WishesInTwoParts(s, Loaded(places, files, names), Loaded(places, files, again));
  }

  predicate IsListed(places: Places, files: FileMap, names: seq<string>, name: string) {
    name in names && LoadFromPath(places, files, name).Ok?
  }

  /** The record is the first one with the uuid that a listed file gives. */
  ghost predicate IsReplaced(places: Places, files: FileMap, names: seq<string>, t: Table<Connection>, i: nat)
    requires i < |t|
  {
    UuidPosition(t, t[i].value.uuid) == i
    && exists name :: IsListed(places, files, names, name) && t[i].value.uuid == ImportedUuid(name)
  }

  /** After an import every file that loads has its record, and every record that was there is where
      it was: what it was as well, unless it is the first with the uuid of such a file. */
  lemma {:induction false} ImportedAreThere(places: Places, files: FileMap, s: State, names: seq<string>)
    requires ConnectionsReady(s)
    ensures var t, after := s.connections, UpsertWishes(s, Loaded(places, files, names)).state.connections;
            && |t| <= |after|
            && (forall name :: IsListed(places, files, names, name) ==> HoldsFile(places, files, after, name))
            && (forall i :: 0 <= i < |t| ==> after[i].path == t[i].path && after[i].value.uuid == t[i].value.uuid)
            && (forall i :: 0 <= i < |t| && !IsReplaced(places, files, names, t, i) ==> after[i] == t[i])
  {
    var t, ws := s.connections, Loaded(places, files, names);
    var after := UpsertWishes(s, ws).state.connections;
    LoadedMembers(places, files, names);
    UpsertWishesGrant(s, ws);
    UpsertWishesGrows(s, ws);
    hide LoadFromPath, ImportedUuid, ConnectionsReady, UpsertWishes, Loaded;
    forall name | IsListed(places, files, names, name) ensures HoldsFile(places, files, after, name) {
      assert Granted(after, ws, ImportedUuid(name));
      LoadedIsPlain(places, files, name);
    }
    forall i | 0 <= i < |t| && !IsReplaced(places, files, names, t, i) ensures after[i] == t[i] {
      assert t[i].value.uuid in Uuids(ws) ==> UuidPosition(t, t[i].value.uuid) != i;
    }
  }

  /** The first record with the file's uuid is the record the file loads as. */
  ghost predicate HoldsFile(places: Places, files: FileMap, t: Table<Connection>, name: string)
    requires LoadFromPath(places, files, name).Ok?
  {
    var i := UuidPosition(t, ImportedUuid(name));
    i < |t| && t[i].value == LoadFromPath(places, files, name).value
  }

  lemma {:induction false} NewAreFirst(s: State, ws: seq<Wanted>)
    requires ConnectionsReady(s)
    ensures var u := UpsertWishes(s, ws).state.connections;
            forall i :: |s.connections| <= i < |u| ==> UuidPosition(u, u[i].value.uuid) == i
  {
    if ws != [] {
      hide UpsertWishes, UpsertWanted, ConnectionsReady, Distinct;
      var front, w := ws[..|ws| - 1], ws[|ws| - 1];
      var y := UpsertWishes(s, front);
      assert ws == front + [w];
      UpsertWishesSnoc(s, front, w);
      NewAreFirst(s, front);
      WishesKeepTable(s, front);
      WishTable(y, w);
      FirstStayFirst(|s.connections|, y.state.connections, UpsertWanted(y, w).state.connections);
    }
  }

  lemma {:induction false} WishesKeepTable(s: State, ws: seq<Wanted>)
    requires ConnectionsReady(s)
    ensures var u := UpsertWishes(s, ws).state.connections; Distinct(u) && |s.connections| <= |u|
  {
    UpsertWishesGrows(s, ws);
  }

  lemma {:induction false} FirstStayFirst(start: nat, u: Table<Connection>, v: Table<Connection>)
    requires forall i :: start <= i < |u| ==> UuidPosition(u, u[i].value.uuid) == i
    requires |u| <= |v| <= |u| + 1 && forall i :: 0 <= i < |u| ==> v[i].value.uuid == u[i].value.uuid
    requires |v| > |u| ==> UuidPosition(v, v[|u|].value.uuid) == |u|
    ensures forall i :: start <= i < |v| ==> UuidPosition(v, v[i].value.uuid) == i
  {
    forall i | start <= i < |v| ensures UuidPosition(v, v[i].value.uuid) == i {
      if i < |u| {
        SameUuidsSamePosition(u, v, u[i].value.uuid);
      }
    }
  }

  /** A wish leaves the uuids in their places; a record it adds is the first with its uuid. */
  lemma {:induction false} WishTable(y: Synced, w: Wanted)
    requires Distinct(y.state.connections)
    ensures var u, v := y.state.connections, UpsertWanted(y, w).state.connections;
            && |u| <= |v| <= |u| + 1
            && (forall i :: 0 <= i < |u| ==> v[i].value.uuid == u[i].value.uuid)
            && (|v| > |u| ==> UuidPosition(v, v[|u|].value.uuid) == |u|)
  {
    var u, i := y.state.connections, UuidPosition(y.state.connections, w.uuid);
    var v := UpsertWanted(y, w).state.connections;
    if i < |u| {
      DistinctLookup(u, i);
      assert v == u[i := Entry(u[i].path, Realized(w))];
    } else {
      assert v == u + [Entry(SettingsPath(y.state.nextSettingsId), Realized(w))];
      assert v[|u|].value.uuid == w.uuid;
      assert forall k :: 0 <= k < |u| ==> v[k] == u[k] && u[k].value.uuid != w.uuid;
    }
    hide UpsertWanted, Distinct, SettingsPath;
  }

  /** Every record after the import was replaced by, or added for, one listed file, or is an old one. */
  lemma {:induction false} ImportedOrOld(places: Places, files: FileMap, s: State, names: seq<string>, j: nat)
    requires ConnectionsReady(s)
    requires j < |UpsertWishes(s, Loaded(places, files, names)).state.connections|
    ensures var t, after := s.connections, UpsertWishes(s, Loaded(places, files, names)).state.connections;
            || (j < |t| && after[j] == t[j] && !IsReplaced(places, files, names, t, j))
            || (UuidPosition(after, after[j].value.uuid) == j
                && exists name :: IsListed(places, files, names, name) && after[j].value.uuid == ImportedUuid(name))
  {
    var t, ws := s.connections, Loaded(places, files, names);
    var after := UpsertWishes(s, ws).state.connections;
    ImportedAreThere(places, files, s, names);
    NewAreFirst(s, ws);
    UpsertWishesGrows(s, ws);
    LoadedMembers(places, files, names);
    hide LoadFromPath, ImportedUuid, ConnectionsReady, UpsertWishes, Loaded;
    if j < |t| {
      SameUuidsSamePosition(t, after, t[j].value.uuid);
    }
  }

  /** Every record whose file is listed and loads is replaced by it. */
  ghost predicate AllReplaced(places: Places, files: FileMap, names: seq<string>, t: Table<Connection>) {
    forall i :: 0 <= i < |t| && HasFile(t[i].value) && IsListed(places, files, names, t[i].value.filename)
      ==> IsReplaced(places, files, names, t, i)
  }

  /** An import keeps one record for each file exactly when every record whose file it lists, and
      which loads, is the one that the import replaces: the first with an imported uuid of a listed
      file. So importing the file of a connection saved under a uuid of its own always makes a second
      record for that file. */
  lemma {:induction false} ImportKeepsFilesApartIff(places: Places, files: FileMap, s: State, names: seq<string>)
    requires ConnectionsReady(s) && DistinctFiles(s.connections)
    ensures var t := s.connections;
            DistinctFiles(UpsertWishes(s, Loaded(places, files, names)).state.connections)
            <==> AllReplaced(places, files, names, t)
  {
    var t, after := s.connections, UpsertWishes(s, Loaded(places, files, names)).state.connections;
    hide LoadFromPath, ConnectionsReady, UpsertWishes, Loaded, IsReplaced;
    ImportedAreThere(places, files, s, names);
    forall i | 0 <= i < |t| && HasFile(t[i].value) && IsListed(places, files, names, t[i].value.filename)
      ensures !IsReplaced(places, files, names, t, i) ==> !DistinctFiles(after)
    {
      ImportTakesTheFile(places, files, s, names, i);
    }
    if AllReplaced(places, files, names, t) {
      forall j, k | 0 <= j < k < |after| && HasFile(after[j].value) && HasFile(after[k].value)
        ensures after[j].value.filename != after[k].value.filename
      {
        ImportedFilesDiffer(places, files, s, names, j, k);
      }
    }
  }

  lemma {:induction false} ImportTakesTheFile(places: Places, files: FileMap, s: State, names: seq<string>, i: nat)
    requires ConnectionsReady(s) && i < |s.connections| && HasFile(s.connections[i].value)
    requires IsListed(places, files, names, s.connections[i].value.filename)
    ensures !IsReplaced(places, files, names, s.connections, i)
            ==> !DistinctFiles(UpsertWishes(s, Loaded(places, files, names)).state.connections)
  {
    var t, name := s.connections, s.connections[i].value.filename;
    var after := UpsertWishes(s, Loaded(places, files, names)).state.connections;
    ImportedAreThere(places, files, s, names);
    LoadedIsPlain(places, files, name);
    hide LoadFromPath, ConnectionsReady, UpsertWishes, Loaded, ImportedUuid, DistinctFiles;
    assert HoldsFile(places, files, after, name);
    var j := UuidPosition(after, ImportedUuid(name));
    SameUuidsSamePosition(t, after, t[i].value.uuid);
    if !IsReplaced(places, files, names, t, i) {
      SharedFile(after, i, j);
    }
  }

  lemma {:induction false} ImportedFilesDiffer(places: Places, files: FileMap, s: State, names: seq<string>, j: nat,
                                               k: nat)
    requires ConnectionsReady(s) && DistinctFiles(s.connections)
    requires AllReplaced(places, files, names, s.connections)
    requires j < k < |UpsertWishes(s, Loaded(places, files, names)).state.connections|
    ensures var after := UpsertWishes(s, Loaded(places, files, names)).state.connections;
            HasFile(after[j].value) && HasFile(after[k].value) ==> after[j].value.filename != after[k].value.filename
  {
    ImportedOrOld(places, files, s, names, j);
    ImportedOrOld(places, files, s, names, k);
    ImportedAreThere(places, files, s, names);
    hide LoadFromPath, ConnectionsReady, UpsertWishes, Loaded, ImportedUuid, IsReplaced;
    var t, after := s.connections, UpsertWishes(s, Loaded(places, files, names)).state.connections;
    forall name | IsListed(places, files, names, name)
      ensures LoadFromPath(places, files, name).value.filename == name && HoldsFile(places, files, after, name)
    {
      LoadedIsPlain(places, files, name);
    }
  }

  lemma {:induction false} SharedFile(t: Table<Connection>, i: nat, j: nat)
    requires i < |t| && j < |t| && i != j && HasFile(t[i].value) && HasFile(t[j].value)
    requires t[i].value.filename == t[j].value.filename
    ensures !DistinctFiles(t)
  {
    var a, b := if i < j then i else j, if i < j then j else i;
    assert a < b && t[a].value.filename == t[b].value.filename;
  }

  // ------------------------------------------------------------------ pruning

  /** A saved user record whose file is not among the known ones. */
  predicate IsOrphan(c: Connection, known: seq<string>) {
    c.origin == User && !c.unsaved && c.filename != "" && c.filename !in known
  }

  function Orphans(t: Table<Connection>, known: seq<string>): seq<string> {
    if t == [] then []
    else
      var rest := Orphans(t[..|t| - 1], known);
      if IsOrphan(t[|t| - 1].value, known) then rest + [t[|t| - 1].path] else rest
  }

  /** The records that are no orphans, in their order. */
  function Kept(t: Table<Connection>, known: seq<string>): Table<Connection> {
    if t == [] then []
    else
      var rest := Kept(t[..|t| - 1], known);
      if IsOrphan(t[|t| - 1].value, known) then rest else rest + [t[|t| - 1]]
  }

  method CollectOrphans(present: Table<Connection>, known: seq<string>) returns (stale: seq<string>)
    ensures stale == Orphans(present, known)
  {
    hide IsOrphan;
    stale := [];
    for i := 0 to |present|
      invariant stale == Orphans(present[..i], known)
    {
      assert present[..i + 1][..i] == present[..i];
      if IsOrphan(present[i].value, known) {
        stale := stale + [present[i].path];
      }
    }
    assert present[..|present|] == present;
  }

  method PruneMissingUserConnections(rt: Runtime, known: seq<string>) returns (log: seq<Signal>)
    modifies rt
    ensures Synced(rt.Contents(), log)
         == RemoveConnections(Synced(old(rt.Contents()), []), Orphans(old(rt.connections), known))
    ensures Distinct(old(rt.connections)) ==>
              && (forall e :: e in rt.connections <==> e in old(rt.connections) && Survives(e.value, known))
              && KeepsOrder(rt.connections, old(rt.connections))
  {
    hide Orphans, AfterRemoveConnection, Survives, KeepsOrder, Distinct;
    if Distinct(rt.connections) {
      PruneLeavesSurvivors(rt.Contents(), known);
    }
    var stale := CollectOrphans(rt.connections, known);
    log := [];
    for i := 0 to |stale|
      invariant Synced(rt.Contents(), log) == RemoveConnections(Synced(old(rt.Contents()), []), stale[..i])
    {
      assert stale[..i + 1][..i] == stale[..i];
      var _ := rt.RemoveConnection(stale[i]);
      log := log + [Removed(Object(Connections, stale[i]))];
    }
    assert stale[..|stale|] == stale;
    assert rt.connections == rt.Contents().connections;
  }

  lemma {:induction false} OrphansMembers(t: Table<Connection>, known: seq<string>)
    requires Distinct(t)
    ensures forall e :: e in t ==> (e.path in Orphans(t, known) <==> IsOrphan(e.value, known))
    ensures forall p :: p in Orphans(t, known) ==> p in PathSet(t)
    ensures NoRepeats(Orphans(t, known))
  {
    if t != [] {
      Unsnoc(t);
      OrphansMembers(t[..|t| - 1], known);
    }
  }

  lemma {:induction false} ExceptIsKept(t: Table<Connection>, known: seq<string>, dead: set<string>)
    requires forall e :: e in t ==> (e.path in dead <==> IsOrphan(e.value, known))
    ensures Except(t, dead) == Kept(t, known)
  {
    if t != [] {
      var front, last := t[..|t| - 1], t[|t| - 1];
      assert t == front + [last] && last in t;
      ExceptIsKept(front, known, dead);
    }
  }

  /** Pruning removes exactly the orphans, keeps the others in their order, and announces exactly
      the records that went. */
  lemma {:induction false} PruneRemovesOrphans(s: State, known: seq<string>)
    requires Distinct(s.connections)
    ensures var r := RemoveConnections(Synced(s, []), Orphans(s.connections, known));
            && r.state.connections == Kept(s.connections, known)
            && Exact(Objects(Connections, s.connections), r.log, Objects(Connections, r.state.connections))
  {
    var t, stale := s.connections, Orphans(s.connections, known);
    OrphansMembers(t, known);
    RemoveConnectionsIsRemoveAll(Synced(s, []), stale);
    RemoveAllShape(Connections, t, stale);
    RemoveAllExact(Connections, t, stale);
    ExceptIsKept(t, known, set p | p in stale);
    assert [] + RemoveAll(Connections, t, stale).log == RemoveAll(Connections, t, stale).log;
  }

  lemma {:induction false} KeptMembers(t: Table<Connection>, known: seq<string>)
    ensures forall e :: e in Kept(t, known) <==> e in t && !IsOrphan(e.value, known)
  {
    if t != [] {
      assert t == t[..|t| - 1] + [t[|t| - 1]];
      KeptMembers(t[..|t| - 1], known);
    }
  }

  /** What a pruning must leave alone: what no user made, what was never saved, what has no file, and what
      has one of these files. */
  predicate Survives(c: Connection, known: seq<string>) {
    c.origin != User || c.unsaved || c.filename == "" || c.filename in known
  }

  lemma {:induction false} KeptInOrder(t: Table<Connection>, known: seq<string>)
    requires Distinct(t)
    ensures KeepsOrder(Kept(t, known), t)
  {
    if t != [] {
      var front, last := t[..|t| - 1], t[|t| - 1];
      Unsnoc(t);
      hide IsOrphan, KeepsOrder, Distinct;
      KeptInOrder(front, known);
      KeepsOrderSnoc(Kept(front, known), front, last);
    }
  }

  /** A pruning leaves exactly the records that survive it, as they were and in the order they had. */
  lemma {:induction false} PruneLeavesSurvivors(s: State, known: seq<string>)
    requires Distinct(s.connections)
    ensures var t := RemoveConnections(Synced(s, []), Orphans(s.connections, known)).state.connections;
            && (forall e :: e in t <==> e in s.connections && Survives(e.value, known))
            && KeepsOrder(t, s.connections)
  {
    PruneRemovesOrphans(s, known);
    KeptMembers(s.connections, known);
    KeptInOrder(s.connections, known);
    hide Kept, Orphans, RemoveConnections, KeepsOrder, Distinct;
  }

  // ------------------------------------------------------------------ reloading

  /** Importing every file and, if all of them load, pruning against the same list. */
  function Reloaded(places: Places, files: FileMap, s: State, names: seq<string>): State {
    var imported := UpsertWishes(s, Loaded(places, files, names)).state;
    if Failures(places, files, names) == []
    then RemoveConnections(Synced(imported, []), Orphans(imported.connections, names)).state
    else imported
  }

  /** A reload ends with a sync when everything loaded and the backends answer. */
  method ReloadConnections(rt: Runtime, dir: Directory, places: Places, env: Env, backends: Option<(seq<Link>, Iwd)>)
    returns (ok: bool, ghost names: seq<string>)
    requires Distinct(rt.devices)
    modifies rt
    ensures forall p :: p in names <==> p in dir.files
    ensures ok <==> Failures(places, dir.files, names) == [] && backends.Some?
    ensures var reloaded := Reloaded(places, dir.files, old(rt.Contents()), names);
            rt.Contents() == if ok then AfterSync(env, reloaded, backends.value.0, backends.value.1).state else reloaded
  {
    hide Loaded, UpsertWishes, RemoveConnections, AfterSync, Distinct;
    ghost var before := rt.Contents();
    var files := dir.Discover();
    names := files;
    var failures, _ := ImportConnections(rt, dir, places, files);
    UpsertWishesFrame(before, Loaded(places, dir.files, files));
    if failures != [] {
      return false, names;
    }
    ghost var imported := rt.Contents();
    var _ := PruneMissingUserConnections(rt, files);
    RemoveConnectionsFrame(Synced(imported, []), Orphans(imported.connections, files));
    assert rt.Contents() == Reloaded(places, dir.files, before, files);
    if backends.None? {
      return false, names;
    }
    assert rt.devices == rt.Contents().devices == before.devices;
    var _, _ := SyncBackends(rt, env, backends.value.0, backends.value.1);
    ok := true;
  }

  /** The failures are the names that do not load, and only those. */
  lemma {:induction false} FailuresMembers(places: Places, files: FileMap, names: seq<string>)
    ensures forall name :: name in Failures(places, files, names)
              <==> name in names && LoadFromPath(places, files, name).Err?
  {
    hide LoadFromPath;
    if names != [] {
      assert names == names[..|names| - 1] + [names[|names| - 1]];
      FailuresMembers(places, files, names[..|names| - 1]);
    }
  }

  lemma {:induction false} NoFailures(places: Places, files: FileMap, names: seq<string>)
    requires Failures(places, files, names) == []
    ensures forall name :: name in names ==> LoadFromPath(places, files, name).Ok?
  {
    hide LoadFromPath;
    FailuresMembers(places, files, names);
  }

  /** When every file loads, then before the closing sync every file has its record, and every saved
      user record with a file name has its file. */
  lemma {:induction false} ReloadMatchesFiles(places: Places, files: FileMap, s: State, names: seq<string>)
    requires ConnectionsReady(s) && (forall p :: p in names <==> p in files)
    requires Failures(places, files, names) == []
    ensures var t := Reloaded(places, files, s, names).connections;
            && (forall p :: p in files ==>
                  LoadFromPath(places, files, p).Ok?
                  && exists e :: e in t && e.value == LoadFromPath(places, files, p).value)
            && (forall e :: e in t && e.value.origin == User && !e.value.unsaved && e.value.filename != ""
                  ==> e.value.filename in files)
  {
    hide LoadFromPath, ImportedUuid, Loaded;
    var imported := UpsertWishes(s, Loaded(places, files, names)).state;
    UpsertWishesGrows(s, Loaded(places, files, names));
    PruneRemovesOrphans(imported, names);
    KeptMembers(imported.connections, names);
    NoFailures(places, files, names);
    forall p | p in files
      ensures exists e :: e in Kept(imported.connections, names) && e.value == LoadFromPath(places, files, p).value
    {
      ImportedAreThere(places, files, s, names);
      LoadedIsPlain(places, files, p);
      assert IsListed(places, files, names, p) && HoldsFile(places, files, imported.connections, p);
      var e := imported.connections[UuidPosition(imported.connections, ImportedUuid(p))];
      assert e in Kept(imported.connections, names);
    }
  }

  /** A reload leaves alone what survives a pruning against its files and is not replaced by one of them:
      every such record is there afterwards as it was, and any two of them are in the same order. */
  lemma {:induction false} ReloadLeavesTheRest(places: Places, files: FileMap, s: State, names: seq<string>, i: nat,
                                               j: nat)
    requires ConnectionsReady(s) && i < |s.connections| && j < |s.connections|
    requires forall k :: k == i || k == j ==>
               Survives(s.connections[k].value, names) && !IsReplaced(places, files, names, s.connections, k)
    ensures var t, after := s.connections, Reloaded(places, files, s, names).connections;
            && t[i] in after && t[j] in after
            && (i < j ==> Position(after, t[i].path) < Position(after, t[j].path))
  {
    var t, imported := s.connections, UpsertWishes(s, Loaded(places, files, names)).state;
    var u, after := imported.connections, Reloaded(places, files, s, names).connections;
    ImportedAreThere(places, files, s, names);
    WishesKeepTable(s, Loaded(places, files, names));
    PruneLeavesSurvivors(imported, names);
    assert u[i] == t[i] && u[j] == t[j];
    hide Loaded, UpsertWishes, RemoveConnections, Orphans, ConnectionsReady, IsReplaced, Survives, Failures;
    if after == u {
      DistinctLookup(u, i);
      DistinctLookup(u, j);
    } else if i < j {
      OrderCarriesOver(after, u, i, j);
    }
  }

  lemma {:induction false} InOrderAt(part: Table<Connection>, whole: Table<Connection>, a: nat, b: nat)
    requires KeepsOrder(part, whole) && a < b < |part|
    ensures Position(whole, part[a].path) < Position(whole, part[b].path)
  {
  }

  lemma {:induction false} FoundAt(t: Table<Connection>, e: Entry<Connection>)
    requires e in t
    ensures Position(t, e.path) < |t| && t[Position(t, e.path)].path == e.path
  {
  }

  lemma {:induction false} OrderCarriesOver(part: Table<Connection>, whole: Table<Connection>, i: nat, j: nat)
    requires Distinct(whole) && KeepsOrder(part, whole) && i < j < |whole| && whole[i] in part && whole[j] in part
    ensures Position(part, whole[i].path) < Position(part, whole[j].path)
  {
    hide Position, Lookup, Distinct, KeepsOrder, PathSet;
    DistinctLookup(whole, i);
    DistinctLookup(whole, j);
    FoundAt(part, whole[i]);
    FoundAt(part, whole[j]);
    var a, b := Position(part, whole[i].path), Position(part, whole[j].path);
    if b < a {
      InOrderAt(part, whole, b, a);
      assert false;
    }
  }
}
