/** The records a checkpoint captures, the files it reads a step later, and whether the two still agree
    after a rollback. */
module CheckpointFiles {
  import opened Text
  import opened ObjectPaths
  import opened Tables
  import opened RuntimeState
  import opened ProfileText
  import opened ProfileRoundTrips
  import opened ProfileStore
  import opened ProfileMirror
  import opened ProfileOutcomes

  lemma {:induction false} SliceHolds(places: Places, t: Table<Connection>, files: FileMap, interfaces: seq<string>)
    requires AllHold(places, t, files) && DistinctFiles(t)
    ensures AllHold(places, ConnectionsOn(t, interfaces), files) && DistinctFiles(ConnectionsOn(t, interfaces))
    ensures OwnFiles(ConnectionsOn(t, interfaces)) <= OwnFiles(t)
  {
    hide FileHolds, ConnectionOn;
    if t != [] {
      var front, last := t[..|t| - 1], t[|t| - 1];
      assert t == front + [last];
      assert AllHold(places, front, files) && DistinctFiles(front);
      SliceHolds(places, front, files, interfaces);
      ConnectionsOnMembers(front, interfaces);
      var rest := ConnectionsOn(front, interfaces);
      assert forall e :: e in rest ==> e in front;
      forall j | 0 <= j < |rest| && HasFile(rest[j].value) && HasFile(last.value)
        ensures rest[j].value.filename != last.value.filename
      {
        assert rest[j] in front;
        var k :| 0 <= k < |front| && front[k] == rest[j];
        assert t[k] == rest[j] && t[|t| - 1] == last;
      }
    }
  }

  /** The files a record table does not own. */
  ghost function Unowned(t: Table<Connection>, files: FileMap): FileMap {
    map p | p in files && p !in OwnFiles(t) :: files[p]
  }

  lemma {:induction false} HeldFilesAreThere(places: Places, t: Table<Connection>, files: FileMap)
    requires AllHold(places, t, files)
    ensures OwnFiles(t) <= files.Keys
  {
    hide FilenameFor, ProfileOf;
    forall p | p in OwnFiles(t) ensures p in files {
      var i :| 0 <= i < |t| && HasFile(t[i].value) && t[i].value.filename == p;
      assert FileHolds(places, t[i].value, files);
    }
  }

  /** The files mirror a part of a mirrored table exactly if they hold what each of its records says. */
  lemma {:induction false} KeptMirrors(places: Places, s: State, files: FileMap, foreign: FileMap, devices: seq<string>,
                                       read: FileMap)
    requires Mirror(places, s.connections, files, foreign) && "" !in read
    ensures var kept := Slice(s, devices).connections;
            && DistinctFiles(kept)
            && (Mirror(places, kept, read, Unowned(kept, read)) <==> AllHold(places, kept, read))
  {
    var kept := ConnectionsOn(s.connections, InterfacesOf(devices));
    SliceHolds(places, s.connections, files, InterfacesOf(devices));
    hide AllHold, DistinctFiles, ConnectionsOn;
    if AllHold(places, kept, read) {
      HeldFilesAreThere(places, kept, read);
    }
  }

  // ------------------------------------------------ between the capture and the reading

  /** The name is that of a saved record. */
  predicate IsSavedName(t: Table<Connection>, path: string) {
    exists j :: 0 <= j < |t| && HasFile(t[j].value) && t[j].value.filename == path && !t[j].value.unsaved
  }

  /** A saved record has the name and prints the same profile. */
  predicate IsSavedLike(t: Table<Connection>, c: Connection) {
    exists j :: 0 <= j < |t| && HasFile(t[j].value) && t[j].value.filename == c.filename && !t[j].value.unsaved
                && ProfileOf(t[j].value) == ProfileOf(c)
  }

  /** What the captured record says of its file is still so when the files are read: a saved record has
      that name with the same profile, or, if the name is by then an unsaved record's or a stranger's,
      the file holds that profile all the same. Of a record not saved only the file's presence counts. */
  predicate FileStands(c: Connection, reading: Table<Connection>, files: FileMap) {
    if c.unsaved then c.filename == "" || c.filename in files
    else if IsSavedName(reading, c.filename) then IsSavedLike(reading, c)
    else c.filename in files && ProfileOf(c).Ok? && files[c.filename] == Utf8(ProfileOf(c).value)
  }

  lemma {:induction false} HoldsIffStands(places: Places, c: Connection, reading: Table<Connection>, files: FileMap,
                                          foreign: FileMap)
    requires Mirror(places, reading, files, foreign)
    requires !c.unsaved ==> FilenameFor(places, c) == Ok(c.filename) && ProfileOf(c).Ok?
    ensures FileHolds(places, c, files) <==> FileStands(c, reading, files)
  {
    hide FilenameFor, ProfileOf, Utf8;
    if !c.unsaved && IsSavedName(reading, c.filename) {
      var j :| 0 <= j < |reading| && HasFile(reading[j].value) && reading[j].value.filename == c.filename
               && !reading[j].value.unsaved;
      assert FileHolds(places, reading[j].value, files);
      if files[c.filename] == Utf8(ProfileOf(c).value) {
        Utf8Injective(ProfileOf(c).value, ProfileOf(reading[j].value).value);
      }
    }
  }

  /** A checkpoint takes the records in one step and reads the files in a later one; the files mirror the
      records at both moments. They mirror the records that a rollback leaves exactly when what each
      captured record says of its file is still so at the later moment. */
  lemma {:induction false} RollbackMirrorsIff(places: Places, s: State, files: FileMap, foreign: FileMap,
                                              devices: seq<string>, reading: State, read: FileMap, foreignThen: FileMap,
                                              later: State, listing: Files)
    requires Mirror(places, s.connections, files, foreign) && Mirror(places, reading.connections, read, foreignThen)
    requires FilesOf(listing) == read
    ensures var snapshot := Slice(s, devices).(persistedFiles := listing);
            var kept := AfterRestore(later, snapshot).connections;
            Mirror(places, kept, FilesOf(snapshot.persistedFiles), Unowned(kept, read))
            <==> forall i :: 0 <= i < |kept| && kept[i].value.origin == User
                   ==> FileStands(kept[i].value, reading.connections, read)
  {
    var kept := ConnectionsOn(s.connections, InterfacesOf(devices));
    NoEmptyFile(places, reading.connections, read, foreignThen);
    KeptMirrors(places, s, files, foreign, devices, read);
    SliceHolds(places, s.connections, files, InterfacesOf(devices));
    hide FilesOf, DistinctFiles, ConnectionsOn, FilenameFor, ProfileOf, Utf8, FileStands, Mirror;
    forall i | 0 <= i < |kept| && kept[i].value.origin == User
      ensures FileHolds(places, kept[i].value, read) <==> FileStands(kept[i].value, reading.connections, read)
    {
      assert FileHolds(places, kept[i].value, files);
      HoldsIffStands(places, kept[i].value, reading.connections, read, foreignThen);
    }
  }

  /** In particular when the captured records are still the same when the files are read. Every file that
      is not a captured record's comes back as well: those of other records without their records. */
  lemma {:induction false} RollbackMirrors(places: Places, s: State, devices: seq<string>, reading: State,
                                           files: FileMap, foreign: FileMap, later: State, listing: Files)
    requires Mirror(places, reading.connections, files, foreign) && FilesOf(listing) == files
    requires Slice(reading, devices).connections == Slice(s, devices).connections
    ensures var snapshot := Slice(s, devices).(persistedFiles := listing);
            var kept := AfterRestore(later, snapshot).connections;
            var others := Unowned(kept, files);
            && Mirror(places, kept, FilesOf(snapshot.persistedFiles), others)
            && (forall p :: p in foreign ==> p in others && others[p] == foreign[p])
            && (forall p :: p in OwnFiles(reading.connections) - OwnFiles(kept) ==> p in others)
  {
    NoEmptyFile(places, reading.connections, files, foreign);
    KeptMirrors(places, reading, files, foreign, devices, files);
    SliceHolds(places, reading.connections, files, InterfacesOf(devices));
    hide FilesOf, AllHold, DistinctFiles, ConnectionsOn;
  }

  // ---------------------------------------------------------- an edit in between

  lemma {:induction false} SavedStandsBy(t: Table<Connection>, files: FileMap, j: nat)
    requires j < |t| && HasFile(t[j].value) && !t[j].value.unsaved
    ensures IsSavedName(t, t[j].value.filename) && FileStands(t[j].value, t, files)
  {
    hide ProfileOf;
  }

  /** A record that the edit did not touch still stands. */
  lemma {:induction false} UntouchedStands(places: Places, t: Table<Connection>, files: FileMap, foreign: FileMap,
                                           j: nat)
    requires Mirror(places, t, files, foreign) && j < |t| && t[j].value.origin == User
    ensures FileStands(t[j].value, t, files)
  {
    assert FileHolds(places, t[j].value, files);
    hide FilenameFor, ProfileOf, Utf8;
    if !t[j].value.unsaved {
      SavedNamed(places, t[j].value);
      SavedStandsBy(t, files, j);
    }
  }

  lemma {:induction false} SavedNamed(places: Places, c: Connection)
    ensures FilenameFor(places, c) == Ok(c.filename) ==> c.filename != ""
  {
    if FilenameFor(places, c) == Ok(c.filename) {
      FilenameParts(places, c, c.filename);
    }
  }

  /** The edited record's old self, against the table after the edit. */
  lemma {:induction false} EditedStands(places: Places, u: Table<Connection>, files: FileMap, foreign: FileMap, i: nat,
                                        c: Connection, before: FileMap)
    requires Mirror(places, u, files, foreign) && i < |u| && u[i].value.origin == User
    requires c.origin == User && !c.unsaved && c.filename != "" && ProfileOf(c).Ok?
    requires c.filename in before && before[c.filename] == Utf8(ProfileOf(c).value)
    requires u[i].value.unsaved ==> u[i].value.filename == c.filename && files == before
    requires !u[i].value.unsaved && u[i].value.filename != c.filename ==> c.filename !in files
    ensures FileStands(c, u, files)
            <==> u[i].value.unsaved || (u[i].value.filename == c.filename && ProfileOf(u[i].value) == ProfileOf(c))
  {
    hide FilenameFor, ProfileOf, Utf8;
    var r := u[i].value;
    assert FileHolds(places, r, files);
    if r.unsaved {
      assert HasFile(r) && !IsSavedName(u, c.filename);
    } else if r.filename == c.filename {
      assert IsSavedName(u, c.filename);
      assert IsSavedLike(u, c) <==> ProfileOf(r) == ProfileOf(c);
    }
  }

  /** One edit of a captured saved record lands between capture and reading. The files mirror the records
      that a rollback leaves exactly when the edit stays in memory, or prints the same profile under the
      same name. */
  lemma {:induction false} EditWhileReading(places: Places, faults: Faults, s: Store, foreign: FileMap, path: string,
                                            edit: Edit, devices: seq<string>, later: State, listing: Files)
    requires Mirror(places, s.state.connections, s.files, foreign)
    requires AfterEdit(places, faults, s, path, edit).result.Ok?
    requires var c := Lookup(s.state.connections, path).value.value;
             && c.origin == User && !c.unsaved && ConnectionOn(c, InterfacesOf(devices))
             && Safe(places, faults, s.files, c.filename, Edited(c, edit))
    requires FilesOf(listing) == AfterEdit(places, faults, s, path, edit).store.files
    ensures var c := Lookup(s.state.connections, path).value.value;
            var after := AfterEdit(places, faults, s, path, edit).store;
            var r := Lookup(after.state.connections, path);
            var kept := AfterRestore(later, Slice(s.state, devices).(persistedFiles := listing)).connections;
            && r.Some?
            && (Mirror(places, kept, after.files, Unowned(kept, after.files))
                <==> r.value.value.unsaved
                     || (r.value.value.filename == c.filename && ProfileOf(r.value.value) == ProfileOf(c)))
  {
    var t, i := s.state.connections, Position(s.state.connections, path);
    var after := AfterEdit(places, faults, s, path, edit).store;
    EditLeaves(places, faults, s, foreign, path, edit);
    RestoredSlice(s.state, devices, later, listing);
    hide AfterEdit, Mirror, FilesOf, FilenameFor, ProfileOf, Utf8, Edited, FileStands, Safe, ConnectionsOn;
    hide AfterRestore, Slice, ConnectionOn, Lookup, Unowned, InterfacesOf;
    CapturedStand(places, t, after.state.connections, after.files, foreign, InterfacesOf(devices), i);
    RollbackMirrorsIff(places, s.state, s.files, foreign, devices, after.state, after.files, foreign, later, listing);
  }

  lemma {:induction false} RestoredSlice(s: State, devices: seq<string>, later: State, listing: Files)
    ensures AfterRestore(later, Slice(s, devices).(persistedFiles := listing)).connections
         == ConnectionsOn(s.connections, InterfacesOf(devices))
  {
  }

  /** What the edit leaves, as far as the captured records go. */
  lemma {:induction false} EditLeaves(places: Places, faults: Faults, s: Store, foreign: FileMap, path: string,
                                      edit: Edit)
    requires Mirror(places, s.state.connections, s.files, foreign)
    requires AfterEdit(places, faults, s, path, edit).result.Ok?
    requires var c := Lookup(s.state.connections, path).value.value;
             c.origin == User && !c.unsaved && Safe(places, faults, s.files, c.filename, Edited(c, edit))
    ensures var t, i := s.state.connections, Position(s.state.connections, path);
            var after := AfterEdit(places, faults, s, path, edit).store;
            var u := after.state.connections;
            && i < |t| == |u| && Mirror(places, u, after.files, foreign)
            && Lookup(u, path) == Some(u[i]) && u[i].value.origin == User
            && (forall j :: 0 <= j < |t| && j != i ==> u[j] == t[j])
            && (FileStands(t[i].value, u, after.files)
                <==> u[i].value.unsaved
                     || (u[i].value.filename == t[i].value.filename && ProfileOf(u[i].value) == ProfileOf(t[i].value)))
  {
    var t, i := s.state.connections, Position(s.state.connections, path);
    NoEmptyFile(places, t, s.files, foreign);
    EditSucceeds(places, faults, s, path, edit);
    EditKeepsMirror(places, faults, s, foreign, path, edit);
    var c, after := t[i].value, AfterEdit(places, faults, s, path, edit).store;
    assert FileHolds(places, c, s.files);
    SavedNamed(places, c);
    hide AfterEdit, Mirror, FilenameFor, ProfileOf, Utf8, Edited, FileStands, Safe, AllHold;
    EditedStands(places, after.state.connections, after.files, foreign, i, c, s.files);
  }

  /** All captured records but the edited one stand. */
  lemma {:induction false} CapturedStand(places: Places, t: Table<Connection>, u: Table<Connection>, files: FileMap,
                                         foreign: FileMap, interfaces: seq<string>, i: nat)
    requires Mirror(places, u, files, foreign) && i < |t| == |u|
    requires forall j :: 0 <= j < |t| && j != i ==> u[j] == t[j]
    requires t[i].value.origin == User && ConnectionOn(t[i].value, interfaces)
    ensures var kept := ConnectionsOn(t, interfaces);
            (forall k :: 0 <= k < |kept| && kept[k].value.origin == User ==> FileStands(kept[k].value, u, files))
            <==> FileStands(t[i].value, u, files)
  {
    hide Mirror, FileStands, ConnectionOn, ConnectionsOn;
    var kept := ConnectionsOn(t, interfaces);
    ConnectionsOnMembers(t, interfaces);
    forall k | 0 <= k < |kept| && kept[k].value.origin == User
      ensures kept[k] == t[i] || FileStands(kept[k].value, u, files)
    {
      assert kept[k] in t;
      var j :| 0 <= j < |t| && t[j] == kept[k];
      if j != i {
        UntouchedStands(places, u, files, foreign, j);
      }
    }
    assert t[i] in kept;
  }

  // ---------------------------------------------------------------- such an edit

  const BEFORE: Settings :=
    map["connection" := map["id" := Value.Text("wired"), "interface-name" := Value.Text("eth0"),
                            "type" := Value.Text(ETHERNET), "uuid" := Value.Text("u")]]

  const RENAMED: Settings :=
    map["connection" := map["id" := Value.Text("wired"), "interface-name" := Value.Text("eth1"),
                            "type" := Value.Text(ETHERNET), "uuid" := Value.Text("u")]]

  lemma {:induction false} NamesPrinted(a: Connection, b: Connection)
    requires a.InterfaceName() == Some("eth0") && b.InterfaceName() == Some("eth1")
    ensures WiredText(a) != WiredText(b)
  {
    hide WiredText, FindIn, Trim, FirstLine;
    WiredNameFound(a);
    WiredNameFound(b);
    RecoveredIff("eth0");
    RecoveredIff("eth1");
  }

  /** A saved wired connection on eth0, under the name that its file gets. */
  function WiredRecord(places: Places): Connection {
    Connection(ETHERNET, Join(places.networkDir, PREFIX + "u" + ".network"), User, BEFORE, false, "u")
  }

  function WiredStore(places: Places, base: State): Store {
    var c := WiredRecord(places);
    Store(base.(connections := [Entry(SettingsPath(1), c)]), map[c.filename := Utf8(WiredText(c))])
  }

  lemma {:induction false} WiredNames(places: Places)
    ensures var c := WiredRecord(places);
            && FilenameFor(places, c) == Ok(c.filename) && ProfileOf(c) == Ok(WiredText(c)) && c.filename != ""
            && c.InterfaceName() == Some("eth0")
  {
    var c := WiredRecord(places);
    assert NetdevKind(ETHERNET) == None;
    assert NetworkExtension(c) == ".network";
    hide Join, NetdevKind, WiredText;
    SavedNamed(places, c);
  }

  lemma {:induction false} RenamedNames(places: Places)
    ensures var r := WiredRecord(places).WithSettings(RENAMED);
            && FilenameFor(places, r) == Ok(WiredRecord(places).filename) && ProfileOf(r) == Ok(WiredText(r))
            && r.InterfaceName() == Some("eth1") && r.filename == WiredRecord(places).filename && !r.unsaved
            && r.connectionType == ETHERNET && r.uuid == "u"
  {
    var r := WiredRecord(places).WithSettings(RENAMED);
    assert NetdevKind(ETHERNET) == None;
    assert r.connectionType == ETHERNET && r.uuid == "u";
    assert NetworkExtension(r) == ".network";
    hide Join, NetdevKind, WiredText;
  }

  lemma {:induction false} WiredMirrors(places: Places, base: State)
    ensures var s := WiredStore(places, base);
            Mirror(places, s.state.connections, s.files, map[])
  {
    WiredNames(places);
    assert WiredRecord(places).origin == User && !WiredRecord(places).unsaved;
    hide WiredRecord, FilenameFor, ProfileOf, Utf8, WiredText, SettingsPath;
    var t := WiredStore(places, base).state.connections;
    assert t[0] in t;
    assert OwnFiles(t) == {t[0].value.filename} by {
      OwnFilesAt(t, 0);
    }
  }

  lemma {:induction false} RenameSucceeds(places: Places, base: State)
    ensures var s := WiredStore(places, base);
            var c, edit := WiredRecord(places), Edit.Update(RENAMED);
            var done := AfterEdit(places, Faults({}, {}), s, SettingsPath(1), edit);
            && Lookup(s.state.connections, SettingsPath(1)) == Some(Entry(SettingsPath(1), c))
            && done.result.Ok? && Safe(places, Faults({}, {}), s.files, c.filename, Edited(c, edit))
            && Lookup(done.store.state.connections, SettingsPath(1))
               == Some(Entry(SettingsPath(1), c.WithSettings(RENAMED)))
  {
    RenamedNames(places);
    var s := WiredStore(places, base);
    var c, r := WiredRecord(places), WiredRecord(places).WithSettings(RENAMED);
    hide WiredRecord, FilenameFor, ProfileOf, Utf8, WiredText, SettingsPath;
    assert s.state.connections == [Entry(SettingsPath(1), c)] && s.state.connections[0] in s.state.connections;
    assert Edited(c, Edit.Update(RENAMED)) == r;
    assert Target(places, Faults({}, {}), r) == Ok(c.filename);
    hide Target, Edited;
    assert Prepared(places, Faults({}, {}), s.files, c, r).result == Ok(r);
    EditFinishes(places, Faults({}, {}), s, SettingsPath(1), c, Edit.Update(RENAMED));
    hide AfterEdit, Prepared;
    ChangedTwice(s.state, SettingsPath(1), r, r);
  }

  /** A checkpoint of eth0 captures the record; before it reads the files, an Update moves the connection
      to eth1. The rollback brings back a record that says eth0 and a file that says eth1. */
  lemma {:induction false} RenameWhileReading(places: Places, base: State, later: State, listing: Files)
    requires var s := WiredStore(places, base);
             FilesOf(listing) == AfterEdit(places, Faults({}, {}), s, SettingsPath(1), Edit.Update(RENAMED)).store.files
    ensures var s := WiredStore(places, base);
            var snapshot := Slice(s.state, [DevicePath("eth0")]).(persistedFiles := listing);
            var kept := AfterRestore(later, snapshot).connections;
            && Mirror(places, s.state.connections, s.files, map[])
            && !Mirror(places, kept, FilesOf(listing), Unowned(kept, FilesOf(listing)))
  {
    var s, c := WiredStore(places, base), WiredRecord(places);
    WiredMirrors(places, base);
    WiredNames(places);
    RenamedNames(places);
    RenameSucceeds(places, base);
    NamesPrinted(c, c.WithSettings(RENAMED));
    EthernetListed();
    assert c.origin == User && !c.unsaved;
    hide WiredRecord, WiredStore, Mirror, AfterEdit, FilesOf, FilenameFor, ProfileOf, WiredText, Safe, Edited, Slice;
    hide AfterRestore, Unowned, DevicePath, SettingsPath;
    EditWhileReading(places, Faults({}, {}), s, map[], SettingsPath(1), Edit.Update(RENAMED), [DevicePath("eth0")],
                     later, listing);
  }

  lemma {:induction false} EthernetListed()
    ensures "eth0" in InterfacesOf([DevicePath("eth0")])
  {
    assert IsElement("eth0");
    assert "eth0" in ["eth0"];
    ListedIffElement(["eth0"], "eth0");
    assert DevicePaths(["eth0"]) == [DevicePath("eth0")];
  }
}
