/** What a client finds after each operation on a user connection. */
module ProfileOutcomes {
  import opened Text
  import opened ObjectPaths
  import opened Tables
  import opened RuntimeState
  import opened ProfileText
  import opened ProfileRoundTrips
  import opened ProfileStore
  import opened ProfileMirror

  /** Whether the record counts as unsaved after the operation. */
  function UnsavedAfter(c: Connection, edit: Edit): bool {
    match edit
    case Update(_) => c.unsaved
    case UpdateUnsaved(_) => true
    case Save => false
    case ClearSecrets => c.unsaved
    case Update2(_, flags, _) => if flags & 0x1E != 0 then true else c.unsaved && flags & 0x1 == 0
  }

  /** The settings a client asked for, or those that were there. */
  ghost predicate SettingsAfter(before: Settings, edit: Edit, after: Settings) {
    match edit
    case Save => after == before
    case ClearSecrets => SECURITY !in after && forall group :: group != SECURITY ==> SameGroup(before, after, group)
    case Update(settings) => after == settings
    case UpdateUnsaved(settings) => after == settings
    case Update2(settings, _, _) => after == settings
  }

  predicate SameGroup(before: Settings, after: Settings, group: string) {
    (group in before <==> group in after) && (group in before ==> before[group] == after[group])
  }

  lemma {:induction false} EditedRecord(c: Connection, edit: Edit)
    ensures Edited(c, edit).unsaved == UnsavedAfter(c, edit)
    ensures SettingsAfter(c.settings, edit, Edited(c, edit).settings)
    ensures edit == ClearSecrets ==> Edited(c, edit).Passphrase() == None
    ensures edit.Update? || edit.UpdateUnsaved? || edit.Update2? ==>
              Edited(c, edit).uuid == Named(edit.settings, "uuid", c.uuid)
              && Edited(c, edit).connectionType == Named(edit.settings, "type", c.connectionType)
  {
  }

  /** What the settings name under this key of the connection group, or else what was there. */
  function Named(settings: Settings, key: string, otherwise: string): string {
    match TextSetting(settings, "connection", key) case Some(text) => text case None => otherwise
  }

  /** The flags of an Update2 are known and do not ask for both disk and memory, and its version, if it has one,
      is the current one. */
  predicate IsInOrder(s: State, edit: Edit) {
    edit.Update2? ==>
      && edit.flags & 0xFFFF_FFA0 == 0 && (edit.flags & 0x1E == 0 || edit.flags & 0x1 == 0)
      && (edit.version.Some? ==> edit.version.value == s.versionId)
  }

  /** Nothing else is refused. */
  lemma {:induction false} RefusedUnlessInOrder(s: State, path: string, edit: Edit)
    ensures Refusal(s, path, edit).None? <==> Lookup(s.connections, path).Some? && IsInOrder(s, edit)
  {
    hide Lookup;
    assert !UPDATE2_FLAGS == 0xFFFF_FFA0 && IN_MEMORY == 0x1E;
  }

  /** The uuid and the type are those the new settings name, and otherwise stay. */
  predicate NamedAfter(before: Connection, edit: Edit, after: Connection) {
    if edit.Save? || edit.ClearSecrets? then after.uuid == before.uuid && after.connectionType == before.connectionType
    else
      && after.uuid == Named(edit.settings, "uuid", before.uuid)
      && after.connectionType == Named(edit.settings, "type", before.connectionType)
  }

  lemma {:induction false} EditedNames(c: Connection, edit: Edit)
    ensures NamedAfter(c, edit, Edited(c, edit))
  {
  }

  /** An operation that succeeds changes one record as asked and counts one version; a record that
      ends up unsaved leaves the files alone, and a saved one has its profile in its file. */
  lemma {:induction false} EditSucceeds(places: Places, faults: Faults, s: Store, path: string, edit: Edit)
    requires AfterEdit(places, faults, s, path, edit).result.Ok? && "" !in s.files
    ensures var after := AfterEdit(places, faults, s, path, edit).store;
            var before := Lookup(s.state.connections, path).value.value;
            var found := Lookup(after.state.connections, path);
            && Lookup(s.state.connections, path).Some? && IsInOrder(s.state, edit) && found.Some?
            && NamedAfter(before, edit, found.value.value)
            && after.state.versionId == s.state.versionId + 1
            && found.value.value.unsaved == UnsavedAfter(before, edit)
            && SettingsAfter(before.settings, edit, found.value.value.settings)
            && found.value.value.origin == before.origin
            && (found.value.value.unsaved ==> after.files == s.files && found.value.value.filename == before.filename)
            && (!found.value.value.unsaved ==> FileHolds(places, found.value.value, after.files))
            && (found.value.value.unsaved || before.filename == found.value.value.filename
                || before.filename !in after.files)
            && |after.state.connections| == |s.state.connections|
            && found.value == after.state.connections[Position(s.state.connections, path)]
            && (forall i :: 0 <= i < |s.state.connections| && i != Position(s.state.connections, path)
                  ==> after.state.connections[i] == s.state.connections[i])
  {
    var t := s.state.connections;
    var i := Position(t, path);
    var before := t[i].value;
    var updated := Edited(before, edit);
    EditedRecord(before, edit);
    EditedNames(before, edit);
    RefusedUnlessInOrder(s.state, path, edit);
    EditKeepsPlace(before, edit);
    PreparedOutcome(places, faults, s.files, before, updated);
    hide Edited, Prepared, SettingsAfter, UnsavedAfter, FileHolds, IsInOrder, Refusal;
    var stored := Prepared(places, faults, s.files, before, updated).result.value;
    ReplacedLookup(t, i, Entry(path, stored));
  }

  /** And an operation succeeds whenever it is in order and its files allow it: the record stays unsaved, or it
      can be written under its name and its old file, if that is another one, can be removed. */
  lemma {:induction false} EditSucceedsIff(places: Places, faults: Faults, s: Store, path: string, edit: Edit)
    ensures AfterEdit(places, faults, s, path, edit).result.Ok? <==>
              && Lookup(s.state.connections, path).Some? && IsInOrder(s.state, edit)
              && var c := Lookup(s.state.connections, path).value.value;
                 || UnsavedAfter(c, edit)
                 || (Target(places, faults, Edited(c, edit)).Ok?
                     && !IsStuck(places, faults, s.files, c.filename, Edited(c, edit)))
  {
    RefusedUnlessInOrder(s.state, path, edit);
    if Refusal(s.state, path, edit).None? {
      EditedRecord(Lookup(s.state.connections, path).value.value, edit);
    }
    hide Refusal, IsInOrder, Target, Edited, UnsavedAfter, Lookup, ProfileOf, Utf8;
  }

  lemma {:induction false} ReplacedLookup(t: Table<Connection>, i: nat, e: Entry<Connection>)
    requires i == Position(t, e.path) < |t|
    ensures Position(t[i := e], e.path) == i && Lookup(t[i := e], e.path) == Some(e)
  {
    var u := t[i := e];
    assert u[i] == e && u[i] in u && forall j :: 0 <= j < i ==> u[j] == t[j];
    assert Position(u, e.path) == i;
  }

  lemma {:induction false} PreparedOutcome(places: Places, faults: Faults, files: FileMap, existing: Connection,
                                           updated: Connection)
    requires Prepared(places, faults, files, existing, updated).result.Ok? && "" !in files
    ensures var w := Prepared(places, faults, files, existing, updated);
            && w.result.value == updated.(filename := w.result.value.filename)
            && (updated.unsaved ==> w.files == files && w.result.value == updated)
            && (!updated.unsaved ==> FileHolds(places, w.result.value, w.files))
            && (!updated.unsaved && existing.filename != w.result.value.filename ==> existing.filename !in w.files)
  {
    if !updated.unsaved {
      StoredRecord(places, faults, updated);
    }
    hide Target, FilenameFor, ProfileOf, Utf8;
  }

  /** An operation that fails changes no record. It changes no file either, unless what failed is the
      removal of the old file: then the new one has been written, and nothing else has changed. */
  lemma {:induction false} EditFails(places: Places, faults: Faults, s: Store, path: string, edit: Edit)
    requires AfterEdit(places, faults, s, path, edit).result.Err?
    ensures var after := AfterEdit(places, faults, s, path, edit).store;
            && after.state == s.state
            && (Refusal(s.state, path, edit).Some? ==> after.files == s.files)
            && (Refusal(s.state, path, edit).None? ==>
                  var c := Lookup(s.state.connections, path).value.value;
                  after.files == if IsStuck(places, faults, s.files, c.filename, Edited(c, edit))
                                 then WrittenUnder(places, faults, s.files, Edited(c, edit)) else s.files)
  {
    if Refusal(s.state, path, edit).None? {
      var c := Lookup(s.state.connections, path).value.value;
      PreparedFails(places, faults, s.files, c, Edited(c, edit));
    }
    hide Prepared, Edited, Lookup, IsStuck, WrittenUnder;
  }

  /** The files once the record's profile is written under the name it asks for. */
  function WrittenUnder(places: Places, faults: Faults, files: FileMap, c: Connection): FileMap {
    match Target(places, faults, c)
    case Ok(path) => files[path := Utf8(ProfileOf(c).value)]
    case Err(_) => files
  }

  lemma {:induction false} PreparedFails(places: Places, faults: Faults, files: FileMap, existing: Connection,
                                         updated: Connection)
    ensures var w := Prepared(places, faults, files, existing, updated);
            w.result.Err? ==>
              w.files == if IsStuck(places, faults, files, existing.filename, updated)
                         then WrittenUnder(places, faults, files, updated) else files
  {
    hide FilenameFor, Utf8;
  }

  /** A connection can be added exactly if its settings name a uuid and a type and, unless it is not to be
      saved, it can be written. Without a uuid or a type nothing happens at all; otherwise a failed addition
      spends its path. */
  lemma {:induction false} AddSucceedsIff(places: Places, faults: Faults, s: Store, settings: Settings, unsaved: bool)
    ensures var done := AfterAdd(places, faults, s, settings, unsaved);
            var uuid, kind := TextSetting(settings, "connection", "uuid"), TextSetting(settings, "connection", "type");
            && (done.result.Ok? <==>
                  && uuid.Some? && kind.Some?
                  && (unsaved
                      || Target(places, faults, Connection(kind.value, "", User, settings, false, uuid.value)).Ok?))
            && (uuid.None? || kind.None? ==> done.store == s)
            && (uuid.Some? && kind.Some? && done.result.Err? ==>
                  done.store == Store(s.state.(nextSettingsId := s.state.nextSettingsId + 1), s.files))
  {
    hide Target, ProfileOf, FilenameFor, Utf8, SettingsPath, TextSetting;
  }

  /** The record that was added is the last one, under the next path, as the settings say and the user's own;
      if it is saved its file holds its profile and no other file has changed, and otherwise none has. */
  lemma {:induction false} AddSucceeds(places: Places, faults: Faults, s: Store, settings: Settings, unsaved: bool)
    requires AfterAdd(places, faults, s, settings, unsaved).result.Ok?
    ensures var done := AfterAdd(places, faults, s, settings, unsaved);
            var n := |s.state.connections|;
            && |done.store.state.connections| == n + 1
            && var e := done.store.state.connections[n];
               && done.result.value == SettingsPath(s.state.nextSettingsId) == e.path
               && done.store.state == s.state.(connections := s.state.connections + [e],
                                               versionId := s.state.versionId + 1,
                                               nextSettingsId := s.state.nextSettingsId + 1)
               && TextSetting(settings, "connection", "uuid") == Some(e.value.uuid)
               && TextSetting(settings, "connection", "type") == Some(e.value.connectionType)
               && e.value.settings == settings && e.value.origin == User && e.value.unsaved == unsaved
               && (unsaved ==> done.store.files == s.files && e.value.filename == "")
               && (!unsaved ==> FileHolds(places, e.value, done.store.files)
                                && done.store.files - {e.value.filename} == s.files - {e.value.filename})
  {
    if !unsaved {
      StoredRecord(places, faults, NewRecord(settings, unsaved).value);
    }
    hide Target, ProfileOf, FilenameFor, Utf8, SettingsPath, TextSetting;
  }

  /** A deletion succeeds exactly if the record is there and its file, if it is there, can be removed. It takes
      away the first record with the path and its file, and nothing else; a failed one changes nothing. */
  lemma {:induction false} DeleteSucceeds(faults: Faults, s: Store, path: string)
    ensures var done := AfterDelete(faults, s, path);
            var t, i := s.state.connections, Position(s.state.connections, path);
            && (done.result.Ok? <==>
                  i < |t| && (t[i].value.filename !in s.files || t[i].value.filename !in faults.undeletable))
            && (done.result.Err? ==> done.store == s)
            && (done.result.Ok? ==>
                  && done.store.state == s.state.(connections := t[..i] + t[i + 1..],
                                                  versionId := s.state.versionId + 1)
                  && done.store.files == s.files - {t[i].value.filename})
  {
  }

  /** Adding and then deleting a connection gives back the records and, unless the name was taken
      before, the files; only the spent path and the version tell. */
  lemma {:induction false} AddThenDelete(places: Places, faults: Faults, s: Store, settings: Settings, unsaved: bool)
    requires AfterAdd(places, faults, s, settings, unsaved).result.Ok?
    requires SettingsPath(s.state.nextSettingsId) !in PathSet(s.state.connections)
    requires faults.undeletable == {} && "" !in s.files
    requires Safe(places, faults, s.files, "", NewRecord(settings, unsaved).value)
    ensures var added := AfterAdd(places, faults, s, settings, unsaved);
            var deleted := AfterDelete(faults, added.store, added.result.value);
            && deleted.result.Ok? && deleted.store.files == s.files
            && deleted.store.state.connections == s.state.connections
            && deleted.store.state.nextSettingsId == s.state.nextSettingsId + 1
            && deleted.store.state.versionId == s.state.versionId + 2
  {
    hide ProfileOf, FilenameFor, Utf8, SettingsPath;
    var t, path := s.state.connections, SettingsPath(s.state.nextSettingsId);
    var record := NewRecord(settings, unsaved).value;
    if !unsaved {
      StoredRecord(places, faults, record);
      assert s.files[Target(places, faults, record).value := Utf8(ProfileOf(record).value)]
             - {Target(places, faults, record).value} == s.files;
    } else {
      assert s.files - {""} == s.files;
    }
    var stored := if unsaved then record else record.(filename := Target(places, faults, record).value);
    LastEntry(t, Entry(path, stored));
    hide Target, NewRecord, Lookup, Without;
  }

  lemma {:induction false} LastEntry(t: Table<Connection>, e: Entry<Connection>)
    requires e.path !in PathSet(t)
    ensures Position(t + [e], e.path) == |t| && Lookup(t + [e], e.path) == Some(e) && Without(t + [e], e.path) == t
  {
    var u := t + [e];
    forall i | 0 <= i < |t| ensures u[i].path != e.path {
      assert t[i] in t;
    }
    assert u[|t|] == e;
    assert u[..|t|] == t && u[|t| + 1..] == [];
  }

  // ------------------------------------------------------------- two operations in a row

  /** The store after one more version, which is all that two ways of doing the same differ in. */
  function OneVersionOn(s: Store): Store {
    s.(state := s.state.(versionId := s.state.versionId + 1))
  }

  lemma {:induction false} PreparedIgnoresRecord(places: Places, faults: Faults, files: FileMap, a: Connection,
                                                 b: Connection,
                                                 updated: Connection)
    requires a.filename == b.filename
    ensures Prepared(places, faults, files, a, updated) == Prepared(places, faults, files, b, updated)
  {
    hide Target, ProfileOf, Utf8;
  }

  /** A second change of the record under a path replaces what the first one left. */
  lemma {:induction false} ChangedTwice(s: State, path: string, first: Connection, second: Connection)
    requires Lookup(s.connections, path).Some?
    ensures var once := AfterUpdateConnection(s, path, first);
            && Lookup(once.connections, path) == Some(Entry(path, first))
            && AfterUpdateConnection(once, path, second)
               == AfterUpdateConnection(s, path, second).(versionId := s.versionId + 2)
  {
    var t, i := s.connections, Position(s.connections, path);
    ReplacedLookup(t, i, Entry(path, first));
    assert t[i := Entry(path, first)][i := Entry(path, second)] == t[i := Entry(path, second)];
    hide Lookup, Position;
  }

  /** What is left of an operation once its record is prepared. */
  function Finish(s: Store, path: string, w: Written): Done<()> {
    match w.result
    case Err(message) => Done(Store(s.state, w.files), Err(message))
    case Ok(updated) => Done(Store(AfterUpdateConnection(s.state, path, updated), w.files), Ok(()))
  }

  lemma {:induction false} EditFinishes(places: Places, faults: Faults, s: Store, path: string, c: Connection,
                                        edit: Edit)
    requires Lookup(s.state.connections, path) == Some(Entry(path, c)) && Refusal(s.state, path, edit).None?
    ensures AfterEdit(places, faults, s, path, edit)
         == Finish(s, path, Prepared(places, faults, s.files, c, Edited(c, edit)))
  {
    hide Prepared, Edited, Lookup, AfterUpdateConnection;
  }

  /** Without a version and with the flag for disk at most, nothing but an unknown path is refused. */
  lemma {:induction false} NotRefused(s: State, path: string, settings: Settings)
    requires Lookup(s.connections, path).Some?
    ensures Refusal(s, path, Update(settings)).None? && Refusal(s, path, UpdateUnsaved(settings)).None?
    ensures Refusal(s, path, Save).None? && Refusal(s, path, Update2(settings, TO_DISK, None)).None?
  {
  }

  lemma {:induction false} FoundUnderPath(t: Table<Connection>, path: string)
    ensures Lookup(t, path).Some? ==> Lookup(t, path) == Some(Entry(path, Lookup(t, path).value.value))
  {
  }

  lemma {:induction false} MemoryEdits(places: Places, faults: Faults, files: FileMap, c: Connection,
                                       settings: Settings)
    ensures var wanted := c.WithSettings(settings).(unsaved := false);
            var memory := wanted.(unsaved := true);
            && Edited(c, UpdateUnsaved(settings)) == memory && Edited(memory, Save) == wanted
            && Edited(c, Update2(settings, TO_DISK, None)) == wanted
            && (!c.unsaved ==> Edited(c, Update(settings)) == wanted)
            && Prepared(places, faults, files, c, memory) == Written(files, Ok(memory))
            && memory.filename == c.filename
  {
  }

  /** Changing a connection in memory and then saving it ends exactly where one Update2 to disk ends, and
      for a saved connection where one Update ends: in the same outcome, and if it succeeds in the same
      records and files. */
  lemma {:induction false} UnsavedThenSave(places: Places, faults: Faults, s: Store, path: string, settings: Settings)
    requires Lookup(s.state.connections, path).Some?
    ensures var toDisk := AfterEdit(places, faults, s, path, Update2(settings, TO_DISK, None));
            var unsaved := AfterEdit(places, faults, s, path, UpdateUnsaved(settings));
            var saved := AfterEdit(places, faults, unsaved.store, path, Save);
            && unsaved.result.Ok? && unsaved.store.files == s.files
            && saved.result == toDisk.result
            && (saved.result.Ok? ==> saved.store == OneVersionOn(toDisk.store))
            && (!Lookup(s.state.connections, path).value.value.unsaved
                ==> toDisk == AfterEdit(places, faults, s, path, Update(settings)))
  {
    var c := Lookup(s.state.connections, path).value.value;
    var wanted := c.WithSettings(settings).(unsaved := false);
    var memory := wanted.(unsaved := true);
    var changed := AfterUpdateConnection(s.state, path, memory);
    var w := Prepared(places, faults, s.files, c, wanted);
    FoundUnderPath(s.state.connections, path);
    NotRefused(s.state, path, settings);
    MemoryEdits(places, faults, s.files, c, settings);
    hide Refusal, Lookup, AfterUpdateConnection, AfterEdit, Edited, Prepared;
    EditFinishes(places, faults, s, path, c, Update2(settings, TO_DISK, None));
    EditFinishes(places, faults, s, path, c, UpdateUnsaved(settings));
    EditFinishes(places, faults, s, path, c, Update(settings));
    ChangedTwice(s.state, path, memory, if w.result.Ok? then w.result.value else wanted);
    NotRefused(changed, path, settings);
    EditFinishes(places, faults, Store(changed, s.files), path, memory, Save);
    PreparedIgnoresRecord(places, faults, s.files, memory, c, wanted);
    VersionsOn(s.state, path, if w.result.Ok? then w.result.value else wanted);
  }

  lemma {:induction false} VersionsOn(s: State, path: string, c: Connection)
    ensures Lookup(s.connections, path).Some? ==> AfterUpdateConnection(s, path, c).versionId == s.versionId + 1
  {
  }

  /** Files written under one free name and then under another end as if the first had not been. */
  lemma {:induction false} RewrittenTwice(files: FileMap, oldName: string, first: string, a: seq<byte>,
                                          second: string, b: seq<byte>)
    requires "" !in files && first != "" && second != "" && Free(files, oldName, first)
    ensures Rewritten(Rewritten(files, oldName, first, a), first, second, b) == Rewritten(files, oldName, second, b)
  {
  }

  /** Of two Updates in a row the last one wins: records and files are as if the first had never been
      asked for, provided it took nobody's file and the last one names uuid and type itself. */
  lemma {:induction false} LastUpdateWins(places: Places, faults: Faults, s: Store, path: string, first: Settings,
                                          second: Settings)
    requires "" !in s.files && faults.undeletable == {}
    requires TextSetting(second, "connection", "uuid").Some? && TextSetting(second, "connection", "type").Some?
    requires AfterEdit(places, faults, s, path, Update(first)).result.Ok?
    requires var c := Lookup(s.state.connections, path).value.value;
             !c.unsaved && Safe(places, faults, s.files, c.filename, c.WithSettings(first))
    ensures var once := AfterEdit(places, faults, s, path, Update(second));
            var between := AfterEdit(places, faults, s, path, Update(first)).store;
            var twice := AfterEdit(places, faults, between, path, Update(second));
            && twice.result == once.result
            && (twice.result.Ok? ==> twice.store == OneVersionOn(once.store))
  {
    var c := Lookup(s.state.connections, path).value.value;
    var x, y := c.WithSettings(first), c.WithSettings(second);
    FoundUnderPath(s.state.connections, path);
    NotRefused(s.state, path, first);
    NotRefused(s.state, path, second);
    hide Refusal;
    EditFinishes(places, faults, s, path, c, Update(first));
    EditFinishes(places, faults, s, path, c, Update(second));
    assert Edited(c, Update(first)) == x && Edited(c, Update(second)) == y;
    hide AfterEdit, Prepared, Target, AfterUpdateConnection, Safe;
    NoEmptyTarget(places, faults, s.files, c, x);
    var target := Target(places, faults, x).value;
    var stored := x.(filename := target);
    assert Edited(stored, Update(second)) == y.(filename := target);
    hide Edited, Lookup;
    StoredElsewhere(places, faults, s.files, c, x, y);
    var w := Prepared(places, faults, s.files, c, y);
    var last := if w.result.Ok? then w.result.value else y;
    ChangedTwice(s.state, path, stored, last);
    VersionsOn(s.state, path, last);
    var changed := Store(AfterUpdateConnection(s.state, path, stored),
                         Rewritten(s.files, c.filename, target, Utf8(ProfileOf(x).value)));
    NotRefused(changed.state, path, second);
    EditFinishes(places, faults, changed, path, stored, Update(second));
    hide ProfileOf, Utf8, Rewritten;
  }

  lemma {:induction false} NoEmptyTarget(places: Places, faults: Faults, files: FileMap, c: Connection, x: Connection)
    requires !x.unsaved && "" !in files && Safe(places, faults, files, c.filename, x)
    requires Prepared(places, faults, files, c, x).result.Ok?
    ensures Target(places, faults, x).Ok? && Target(places, faults, x).value != "" && ProfileOf(x).Ok?
    ensures var path := Target(places, faults, x).value;
            && Free(files, c.filename, path)
            && Prepared(places, faults, files, c, x)
               == Written(Rewritten(files, c.filename, path, Utf8(ProfileOf(x).value)), Ok(x.(filename := path)))
  {
    assert Target(places, faults, x).Ok?;
    StoredRecord(places, faults, x);
    PreparedRewrites(places, faults, files, c, x);
    hide Target, Prepared, ProfileOf;
  }

  /** After a first profile under a free name, storing the second one leaves what storing it at once leaves. */
  lemma {:induction false} StoredElsewhere(places: Places, faults: Faults, files: FileMap, c: Connection,
                                           x: Connection, y: Connection)
    requires "" !in files && faults.undeletable == {} && !x.unsaved && !y.unsaved
    requires Target(places, faults, x).Ok? && ProfileOf(x).Ok? && Target(places, faults, x).value != ""
    requires Free(files, c.filename, Target(places, faults, x).value)
    ensures var path := Target(places, faults, x).value;
            var after := Rewritten(files, c.filename, path, Utf8(ProfileOf(x).value));
            var once, twice := Prepared(places, faults, files, c, y),
                               Prepared(places, faults, after, x.(filename := path), y.(filename := path));
            && twice.result == once.result && (once.result.Ok? ==> twice.files == once.files)
  {
    var path := Target(places, faults, x).value;
    ProfileIgnoresName(places, y, path);
    assert Target(places, faults, y.(filename := path)) == Target(places, faults, y);
    if Target(places, faults, y).Ok? {
      StoredRecord(places, faults, y);
      var a, b := Utf8(ProfileOf(x).value), Utf8(ProfileOf(y).value);
      RewrittenTwice(files, c.filename, path, a, Target(places, faults, y).value, b);
      RewrittenNames(files, c.filename, Target(places, faults, y).value, b);
      RewrittenNames(Rewritten(files, c.filename, path, a), path, Target(places, faults, y).value, b);
    }
    hide Target, ProfileOf, Utf8;
  }

  /** Dropping an old name that no file has changes nothing. */
  lemma {:induction false} RewrittenNames(files: FileMap, oldName: string, path: string, contents: seq<byte>)
    ensures oldName !in files && oldName != path
         ==> Rewritten(files, oldName, path, contents) == files[path := contents]
  {
  }

  /** Of the flags of Update2 only those for disk and memory matter: without either it is Update, with one
      for memory UpdateUnsaved. */
  lemma {:induction false} Update2IsTheOthers(places: Places, faults: Faults, s: Store, path: string,
                                              settings: Settings, flags: bv32, version: Option<nat>)
    requires version.None? || version.value == s.state.versionId
    requires flags & !UPDATE2_FLAGS == 0 && (flags & TO_DISK == 0 || flags & IN_MEMORY == 0)
    ensures AfterEdit(places, faults, s, path, Update2(settings, flags, version))
         == AfterEdit(places, faults, s, path,
                      if flags & IN_MEMORY != 0 then UpdateUnsaved(settings)
                      else if flags & TO_DISK != 0 then Update2(settings, TO_DISK, None)
                      else Update(settings))
  {
    hide Prepared, Lookup, AfterUpdateConnection;
  }

  /** Of two clients with the same version, the one that calls Update2 after the other has written is
      refused and changes nothing. A call whose comparison comes before the other's write is not: see
      `Update2Overwrites` in SystemVersion. */
  lemma {:induction false} SecondClientIsRefused(places: Places, faults: Faults, s: Store, path: string, edit: Edit,
                                                 other: string, second: Edit)
    requires "" !in s.files && second.Update2? && second.version == Some(s.state.versionId)
    requires AfterEdit(places, faults, s, path, edit).result.Ok?
    ensures var after := AfterEdit(places, faults, s, path, edit).store;
            var refused := AfterEdit(places, faults, after, other, second);
            refused.result.Err? && refused.store == after
  {
    EditSucceeds(places, faults, s, path, edit);
    hide Prepared, Lookup, Edited, AfterUpdateConnection;
  }

  // ------------------------------------------------------------- saving and loading

  /** What is read from the file just written. */
  lemma {:induction false} PersistThenLoad(places: Places, faults: Faults, files: FileMap, c: Connection)
    requires Persisted(places, faults, files, c).result.Ok?
    ensures var w := Persisted(places, faults, files, c);
            && ProfileOf(c).Ok? && FilenameFor(places, c) == Ok(w.result.value.filename)
            && LoadFromPath(places, w.files, w.result.value.filename)
               == LoadConnection(places, w.result.value.filename, ProfileOf(c).value)
  {
    StoredRecord(places, faults, c);
    hide Target, ProfileOf, FilenameFor, LoadConnection;
    Utf8RoundTrip(ProfileOf(c).value);
  }

  /** Saving a Wi-Fi connection and loading its file gives the SSID and the passphrase back exactly when
      the SSID is not empty and the passphrase is trimmed and free of line feeds. */
  lemma {:induction false} SavedWifiLoadsBack(places: Places, faults: Faults, files: FileMap, c: Connection)
    requires c.connectionType == WIFI && Persisted(places, faults, files, c).result.Ok?
    ensures var w := Persisted(places, faults, files, c);
            var loaded := LoadFromPath(places, w.files, w.result.value.filename);
            && loaded.Ok? && loaded.value.filename == w.result.value.filename
            && (loaded.value.Ssid() == c.Ssid() && loaded.value.Passphrase() == c.Passphrase()
                <==> c.Ssid() != Some("") && Recoverable(c.Passphrase()))
  {
    var path := Persisted(places, faults, files, c).result.value.filename;
    PersistThenLoad(places, faults, files, c);
    FilenameParts(places, c, path);
    assert ProfileOf(c) == Ok(WifiText(c));
    hide Persisted, ProfileOf, FilenameFor, LoadFromPath, LoadConnection, WifiText, Recoverable;
    WifiRoundTrip(places, c, c.Ssid().value, path);
  }
}
