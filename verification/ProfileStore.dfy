/** Adding, changing, saving and deleting user connections together with their files. */
module ProfileStore {
  import opened Text
  import opened ObjectPaths
  import opened Tables
  import opened RuntimeState
  import opened RuntimeStore
  import opened ProfileText
  import opened ProfileDirectory

  type FileMap = map<string, seq<byte>>

  /** The runtime and the profile directories side by side. */
  datatype Store = Store(state: State, files: FileMap)

  /** Paths on which a write, or a removal, fails. */
  datatype Faults = Faults(unwritable: set<string>, undeletable: set<string>)

  // ------------------------------------------------------------------ persisting

  datatype Written = Written(files: FileMap, result: Result<Connection>)

  /** Where the record would be written, if it can be printed and written. */
  function Target(places: Places, faults: Faults, c: Connection): Result<string> {
    match FilenameFor(places, c)
    case Err(message) => Err(message)
    case Ok(path) =>
      match ProfileOf(c)
      case Err(message) => Err(message)
      case Ok(_) => if path in faults.unwritable then Err("the file cannot be written") else Ok(path)
  }

  function Persisted(places: Places, faults: Faults, files: FileMap, c: Connection): Written {
    match Target(places, faults, c)
    case Err(message) => Written(files, Err(message))
    case Ok(path) => Written(files[path := Utf8(ProfileOf(c).value)], Ok(c.(filename := path)))
  }

  /** Nothing for an unsaved record; otherwise the new file, and the old one gone if the name changed. */
  function Prepared(places: Places, faults: Faults, files: FileMap, existing: Connection,
                    updated: Connection): Written {
    if updated.unsaved then Written(files, Ok(updated))
    else
      var w := Persisted(places, faults, files, updated);
      if w.result.Err? || existing.filename in {"", w.result.value.filename} || existing.filename !in w.files then w
      else if existing.filename in faults.undeletable then Written(w.files, Err("the file cannot be removed"))
      else Written(w.files - {existing.filename}, w.result)
  }

  function FaultsOf(dir: Directory): Faults {
    Faults(dir.unwritable, dir.undeletable)
  }

  method PersistConnection(dir: Directory, places: Places, c: Connection) returns (r: Result<Connection>)
    modifies dir
    ensures Written(dir.files, r) == Persisted(places, FaultsOf(dir), old(dir.files), c)
  {
    hide FilenameFor, ProfileOf;
    var filename := FilenameFor(places, c);
    if filename.Err? {
      return Err(filename.message);
    }
    var contents := ProfileOf(c);
    if contents.Err? {
      return Err(contents.message);
    }
    var ok := dir.Write(filename.value, Utf8(contents.value));
    r := if ok then Ok(c.(filename := filename.value)) else Err("the file cannot be written");
  }

  /** A file that is already gone counts as removed. */
  method DeletePersistedConnection(dir: Directory, c: Connection) returns (ok: bool)
    modifies dir
    ensures ok <==> c.filename !in old(dir.files) || c.filename !in dir.undeletable
    ensures dir.files == if ok then old(dir.files) - {c.filename} else old(dir.files)
  {
    if c.filename !in dir.files {
      return true;
    }
    ok := dir.Delete(c.filename);
  }

  method PersistPreparedConnection(dir: Directory, places: Places, existing: Connection, updated: Connection)
    returns (r: Result<Connection>)
    modifies dir
    ensures Written(dir.files, r) == Prepared(places, FaultsOf(dir), old(dir.files), existing, updated)
  {
    hide Target, ProfileOf;
    if updated.unsaved {
      return Ok(updated);
    }
    r := PersistConnection(dir, places, updated);
    if r.Ok? && existing.filename != "" && existing.filename != r.value.filename {
      var ok := DeletePersistedConnection(dir, existing);
      if !ok {
        r := Err("the file cannot be removed");
      }
    }
  }

  // ------------------------------------------------------------------ operations

  datatype Edit =
    | Update(settings: Settings)
    | UpdateUnsaved(settings: Settings)
    | Save
    | ClearSecrets
    | Update2(settings: Settings, flags: bv32, version: Option<nat>)

  const TO_DISK: bv32 := 0x1
  const IN_MEMORY: bv32 := 0x2 | 0x4 | 0x8 | 0x10
  const UPDATE2_FLAGS: bv32 := 0x1 | 0x2 | 0x4 | 0x8 | 0x10 | 0x40

  /** Update2 refuses unknown flags, then unknown records, then a version that has passed, then
      flags that ask for both disk and memory. */
  function Refusal(s: State, path: string, edit: Edit): Option<string> {
    if edit.Update2? && edit.flags & !UPDATE2_FLAGS != 0 then Some("unknown Update2 flags")
    else if Lookup(s.connections, path).None? then Some("unknown connection")
    else if edit.Update2? && edit.version.Some? && edit.version.value != s.versionId then Some("version-id mismatch")
    else if edit.Update2? && edit.flags & IN_MEMORY != 0 && edit.flags & TO_DISK != 0 then
      Some("Update2 cannot combine to-disk and in-memory")
    else None
  }

  function Edited(c: Connection, edit: Edit): Connection {
    match edit
    case Update(settings) => c.WithSettings(settings)
    case UpdateUnsaved(settings) => c.WithSettings(settings).(unsaved := true)
    case Save => c.(unsaved := false)
    case ClearSecrets => c.(settings := c.settings - {SECURITY})
    case Update2(settings, flags, _) =>
      var updated := c.WithSettings(settings);
      if flags & IN_MEMORY != 0 then updated.(unsaved := true)
      else if flags & TO_DISK != 0 then updated.(unsaved := false)
      else updated
  }

  datatype Done<T> = Done(store: Store, result: Result<T>)

  function AfterEdit(places: Places, faults: Faults, s: Store, path: string, edit: Edit): Done<()> {
    var refusal := Refusal(s.state, path, edit);
    if refusal.Some? then Done(s, Err(refusal.value))
    else
      var existing := Lookup(s.state.connections, path).value.value;
      var w := Prepared(places, faults, s.files, existing, Edited(existing, edit));
      match w.result
      case Err(message) => Done(Store(s.state, w.files), Err(message))
      case Ok(updated) => Done(Store(AfterUpdateConnection(s.state, path, updated), w.files), Ok(()))
  }

  function AfterDelete(faults: Faults, s: Store, path: string): Done<()> {
    match Lookup(s.state.connections, path)
    case None => Done(s, Err("unknown connection"))
    case Some(e) =>
      if e.value.filename in s.files && e.value.filename in faults.undeletable
      then Done(s, Err("the file cannot be removed"))
      else Done(Store(AfterRemoveConnection(s.state, path), s.files - {e.value.filename}), Ok(()))
  }

  function NewRecord(settings: Settings, unsaved: bool): Result<Connection> {
    match TextSetting(settings, "connection", "uuid")
    case None => Err("missing connection.uuid")
    case Some(uuid) =>
      match TextSetting(settings, "connection", "type")
      case None => Err("missing connection.type")
      case Some(kind) => Ok(Connection(kind, "", User, settings, unsaved, uuid))
  }

  /** The path is spent even when the file cannot be written. */
  function AfterAdd(places: Places, faults: Faults, s: Store, settings: Settings, unsaved: bool): Done<string> {
    match NewRecord(settings, unsaved)
    case Err(message) => Done(s, Err(message))
    case Ok(record) =>
      var path, spent := SettingsPath(s.state.nextSettingsId), AfterNextConnectionPath(s.state);
      var w := if unsaved then Written(s.files, Ok(record)) else Persisted(places, faults, s.files, record);
      match w.result
      case Err(message) => Done(Store(spent, w.files), Err(message))
      case Ok(stored) => Done(Store(AfterAddConnection(spent, Entry(path, stored)), w.files), Ok(path))
  }

  ghost function StoreOf(rt: Runtime, dir: Directory): Store
    reads rt, dir
  {
    Store(rt.Contents(), dir.files)
  }

  method AddConnectionInner(rt: Runtime, dir: Directory, places: Places, settings: Settings, unsaved: bool)
    returns (r: Result<string>)
    modifies rt, dir
    ensures Done(StoreOf(rt, dir), r) == AfterAdd(places, FaultsOf(dir), old(StoreOf(rt, dir)), settings, unsaved)
  {
    hide Target, ProfileOf, SettingsPath;
    var record := NewRecord(settings, unsaved);
    if record.Err? {
      return Err(record.message);
    }
    var path := rt.NextConnectionPath();
    var stored := record;
    if !unsaved {
      stored := PersistConnection(dir, places, record.value);
      if stored.Err? {
        return Err(stored.message);
      }
    }
    rt.AddConnection(Entry(path, stored.value));
    r := Ok(path);
  }

  method ApplyRuntimeConnection(rt: Runtime, path: string, updated: Connection) returns (found: bool)
    modifies rt
    ensures found == Lookup(old(rt.connections), path).Some?
    ensures rt.Contents() == AfterUpdateConnection(old(rt.Contents()), path, updated)
  {
    found := rt.UpdateConnection(path, _ => updated);
  }

  /** Writing the prepared record and then putting it into the runtime. */
  method StoreEdited(rt: Runtime, dir: Directory, places: Places, path: string, edit: Edit) returns (r: Result<()>)
    requires Refusal(rt.Contents(), path, edit).None?
    modifies rt, dir
    ensures Done(StoreOf(rt, dir), r) == AfterEdit(places, FaultsOf(dir), old(StoreOf(rt, dir)), path, edit)
  {
    hide Prepared, Edited;
    var connection := Lookup(rt.connections, path).value.value;
    var prepared := PersistPreparedConnection(dir, places, connection, Edited(connection, edit));
    if prepared.Err? {
      return Err(prepared.message);
    }
    var _ := ApplyRuntimeConnection(rt, path, prepared.value);
    r := Ok(());
  }

  method ChangeConnection(rt: Runtime, dir: Directory, places: Places, path: string, edit: Edit) returns (r: Result<()>)
    modifies rt, dir
    ensures Done(StoreOf(rt, dir), r) == AfterEdit(places, FaultsOf(dir), old(StoreOf(rt, dir)), path, edit)
  {
    hide Prepared, Edited;
    if edit.Update2? && edit.flags & !UPDATE2_FLAGS != 0 {
      return Err("unknown Update2 flags");
    }
    if Lookup(rt.connections, path).None? {
      return Err("unknown connection");
    }
    if edit.Update2? && edit.version.Some? && edit.version.value != rt.versionId {
      return Err("version-id mismatch");
    }
    if edit.Update2? && edit.flags & IN_MEMORY != 0 && edit.flags & TO_DISK != 0 {
      return Err("Update2 cannot combine to-disk and in-memory");
    }
    r := StoreEdited(rt, dir, places, path, edit);
  }

  method DeleteConnection(rt: Runtime, dir: Directory, path: string) returns (r: Result<()>)
    modifies rt, dir
    ensures Done(StoreOf(rt, dir), r) == AfterDelete(FaultsOf(dir), old(StoreOf(rt, dir)), path)
  {
    var e := Lookup(rt.connections, path);
    if e.None? {
      return Err("unknown connection");
    }
    var ok := DeletePersistedConnection(dir, e.value.value);
    if !ok {
      return Err("the file cannot be removed");
    }
    var _ := rt.RemoveConnection(path);
    r := Ok(());
  }
}
