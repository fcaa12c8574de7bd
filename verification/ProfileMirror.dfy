/** The profile directories mirror the saved user connections. */
module ProfileMirror {
  import opened Text
  import opened ObjectPaths
  import opened Tables
  import opened RuntimeState
  import opened ProfileText
  import opened ProfileRoundTrips
  import opened ProfileStore

  // ------------------------------------------------------------------ file names

  /** Two records ask for the same file. */
  predicate SameFile(a: Connection, b: Connection) {
    if a.connectionType == WIFI then
      b.connectionType == WIFI && a.Ssid() == b.Ssid() && (a.Passphrase().Some? <==> b.Passphrase().Some?)
    else
      b.connectionType != WIFI && a.uuid == b.uuid && (IsNetdev(a) <==> IsNetdev(b))
  }

  function LastTwo(s: string): string
    requires |s| >= 2
  {
    s[|s| - 2..]
  }

  lemma {:induction false} DifferentEnds(a: string, x: string, b: string, y: string)
    requires |x| >= 2 && |y| >= 2 && LastTwo(x) != LastTwo(y)
    ensures a + x != b + y
  {
    assert LastTwo(a + x) == LastTwo(x) && LastTwo(b + y) == LastTwo(y);
  }

  lemma {:induction false} CancelTail(a: string, b: string, x: string)
    ensures a + x == b + x <==> a == b
  {
    if a + x == b + x {
      assert a == (a + x)[..|a|] && b == (b + x)[..|b|];
    }
  }

  lemma {:induction false} ExtensionEnds(c: Connection)
    ensures |WifiExtension(c)| >= 2 && LastTwo(WifiExtension(c)) == (if c.Passphrase().Some? then "sk" else "en")
    ensures |NetworkExtension(c)| >= 2 && LastTwo(NetworkExtension(c)) == (if IsNetdev(c) then "ev" else "rk")
  {
    hide NetdevKind;
  }

  /** The path without its extension, and the extension. */
  lemma {:induction false} FilenameParts(places: Places, c: Connection, path: string)
    requires FilenameFor(places, c) == Ok(path)
    ensures c.connectionType == WIFI ==> c.Ssid().Some?
    ensures c.connectionType == WIFI ==> path == Join(places.iwdDir, EncodeIwdName(c.Ssid().value)) + WifiExtension(c)
    ensures c.connectionType != WIFI ==> path == Join(places.networkDir, PREFIX + c.uuid) + NetworkExtension(c)
    ensures path != ""
  {
    ExtensionEnds(c);
    hide Join, EncodeIwdName, WifiExtension, NetworkExtension;
    if c.connectionType == WIFI {
      JoinTail(places.iwdDir, EncodeIwdName(c.Ssid().value), WifiExtension(c));
    } else {
      JoinTail(places.networkDir, PREFIX + c.uuid, NetworkExtension(c));
    }
  }

  /** Exactly when two records ask for the same file. */
  lemma {:induction false} FilenamesCollide(places: Places, a: Connection, b: Connection, p: string, q: string)
    requires FilenameFor(places, a) == Ok(p) && FilenameFor(places, b) == Ok(q)
    ensures p == q <==> SameFile(a, b)
  {
    FilenameParts(places, a, p);
    FilenameParts(places, b, q);
    ExtensionEnds(a);
    ExtensionEnds(b);
    if a.connectionType == WIFI && b.connectionType == WIFI {
      WifiFilenamesCollide(places, a, b, p, q);
    } else if a.connectionType != WIFI && b.connectionType != WIFI {
      NetworkFilenamesCollide(places, a, b, p, q);
    } else if a.connectionType == WIFI {
      DifferentEnds(Join(places.iwdDir, EncodeIwdName(a.Ssid().value)), WifiExtension(a),
                    Join(places.networkDir, PREFIX + b.uuid), NetworkExtension(b));
    } else {
      DifferentEnds(Join(places.networkDir, PREFIX + a.uuid), NetworkExtension(a),
                    Join(places.iwdDir, EncodeIwdName(b.Ssid().value)), WifiExtension(b));
    }
  }

  lemma {:induction false} WifiFilenamesCollide(places: Places, a: Connection, b: Connection, p: string, q: string)
    requires FilenameFor(places, a) == Ok(p) && FilenameFor(places, b) == Ok(q)
    requires a.connectionType == WIFI && b.connectionType == WIFI
    ensures p == q <==> SameFile(a, b)
  {
    FilenameParts(places, a, p);
    FilenameParts(places, b, q);
    ExtensionEnds(a);
    ExtensionEnds(b);
    var x, y := EncodeIwdName(a.Ssid().value), EncodeIwdName(b.Ssid().value);
    if x == y {
      IwdNameInjective(a.Ssid().value, b.Ssid().value);
    }
    JoinInjective(places.iwdDir, x, y);
    if a.Passphrase().Some? <==> b.Passphrase().Some? {
      CancelTail(Join(places.iwdDir, x), Join(places.iwdDir, y), WifiExtension(a));
    } else {
      DifferentEnds(Join(places.iwdDir, x), WifiExtension(a), Join(places.iwdDir, y), WifiExtension(b));
    }
  }

  lemma {:induction false} NetworkFilenamesCollide(places: Places, a: Connection, b: Connection, p: string, q: string)
    requires FilenameFor(places, a) == Ok(p) && FilenameFor(places, b) == Ok(q)
    requires a.connectionType != WIFI && b.connectionType != WIFI
    ensures p == q <==> SameFile(a, b)
  {
    FilenameParts(places, a, p);
    FilenameParts(places, b, q);
    ExtensionEnds(a);
    ExtensionEnds(b);
    var x, y := PREFIX + a.uuid, PREFIX + b.uuid;
    assert x == y <==> a.uuid == b.uuid by {
      assert x[|PREFIX|..] == a.uuid && y[|PREFIX|..] == b.uuid;
    }
    JoinInjective(places.networkDir, x, y);
    if IsNetdev(a) <==> IsNetdev(b) {
      CancelTail(Join(places.networkDir, x), Join(places.networkDir, y), NetworkExtension(a));
    } else {
      DifferentEnds(Join(places.networkDir, x), NetworkExtension(a), Join(places.networkDir, y), NetworkExtension(b));
    }
  }

  // ------------------------------------------------------------------ the mirror

  /** The record's file is there; if the record is saved, it is under the right name and holds
      exactly the printed profile. */
  predicate FileHolds(places: Places, c: Connection, files: FileMap) {
    if c.unsaved then c.filename == "" || c.filename in files
    else FilenameFor(places, c) == Ok(c.filename) && ProfileOf(c).Ok?
         && c.filename in files && files[c.filename] == Utf8(ProfileOf(c).value)
  }

  predicate HasFile(c: Connection) {
    c.origin == User && c.filename != ""
  }

  ghost function OwnFiles(t: Table<Connection>): set<string> {
    set e | e in t && HasFile(e.value) :: e.value.filename
  }

  ghost predicate DistinctFiles(t: Table<Connection>) {
    forall i, j :: 0 <= i < j < |t| && HasFile(t[i].value) && HasFile(t[j].value)
      ==> t[i].value.filename != t[j].value.filename
  }

  ghost predicate AllHold(places: Places, t: Table<Connection>, files: FileMap) {
    forall i :: 0 <= i < |t| && t[i].value.origin == User ==> FileHolds(places, t[i].value, files)
  }

  /** Every user record has its own file, and apart from those there is exactly `foreign`. */
  ghost predicate Mirror(places: Places, t: Table<Connection>, files: FileMap, foreign: FileMap) {
    && AllHold(places, t, files)
    && DistinctFiles(t)
    && OwnFiles(t) !! foreign.Keys && "" !in foreign
    && files.Keys == OwnFiles(t) + foreign.Keys
    && (forall p :: p in foreign ==> files[p] == foreign[p])
  }

  /** Before any user record is there, whatever files there are belong to others. */
  lemma {:induction false} StartMirrors(places: Places, t: Table<Connection>, files: FileMap)
    requires "" !in files && forall e :: e in t ==> e.value.origin != User
    ensures Mirror(places, t, files, files)
  {
    hide FileHolds;
    assert forall i :: 0 <= i < |t| ==> t[i] in t;
    assert OwnFiles(t) == {};
  }

  /** What a successful write of the record leaves: the new file, and not the old one. */
  function Rewritten(files: FileMap, oldName: string, path: string, contents: seq<byte>): FileMap {
    if oldName in {"", path} then files[path := contents] else files[path := contents] - {oldName}
  }

  /** The record may take the path: it is its own already, or nobody's. */
  predicate Free(files: FileMap, oldName: string, path: string) {
    path == oldName || path !in files
  }

  lemma {:induction false} OwnFilesAt(t: Table<Connection>, i: nat)
    requires i < |t| && HasFile(t[i].value)
    ensures t[i].value.filename in OwnFiles(t)
  {
    assert t[i] in t;
  }

  lemma {:induction false} OwnFilesReplaced(t: Table<Connection>, i: nat, e: Entry<Connection>)
    requires i < |t| && DistinctFiles(t) && t[i].value.origin == User && HasFile(e.value)
    ensures OwnFiles(t[i := e]) == OwnFiles(t) - {t[i].value.filename} + {e.value.filename}
  {
    var u, gone := t[i := e], t[i].value.filename;
    OwnFilesAt(u, i);
    forall p | p in OwnFiles(u) && p != e.value.filename ensures p in OwnFiles(t) - {gone} {
      var j :| 0 <= j < |u| && HasFile(u[j].value) && u[j].value.filename == p;
      OwnFilesAt(t, j);
    }
    forall p | p in OwnFiles(t) - {gone} ensures p in OwnFiles(u) {
      var j :| 0 <= j < |t| && HasFile(t[j].value) && t[j].value.filename == p;
      OwnFilesAt(u, j);
    }
  }

  ghost predicate NotOthers(t: Table<Connection>, i: nat, names: set<string>) {
    forall j :: 0 <= j < |t| && j != i && HasFile(t[j].value) ==> t[j].value.filename !in names
  }

  /** Another record never holds the name this one takes. */
  lemma {:induction false} FreeOfOthers(t: Table<Connection>, files: FileMap, i: nat, path: string)
    requires i < |t| && DistinctFiles(t) && t[i].value.origin == User && OwnFiles(t) <= files.Keys
    requires Free(files, t[i].value.filename, path) && path != ""
    ensures NotOthers(t, i, {path, t[i].value.filename})
  {
    forall j | 0 <= j < |t| && j != i && HasFile(t[j].value)
      ensures t[j].value.filename !in {path, t[i].value.filename}
    {
      OwnFilesAt(t, j);
    }
  }

  /** Writing the record at `i` anew keeps the mirror. */
  lemma {:induction false} RewriteKeepsMirror(places: Places, t: Table<Connection>, files: FileMap, foreign: FileMap,
                                              i: nat, e: Entry<Connection>)
    requires Mirror(places, t, files, foreign) && i < |t| && t[i].value.origin == User
    requires e.value.origin == User && !e.value.unsaved && e.value.filename != ""
    requires FilenameFor(places, e.value) == Ok(e.value.filename) && ProfileOf(e.value).Ok?
    requires Free(files, t[i].value.filename, e.value.filename)
    ensures var contents := Utf8(ProfileOf(e.value).value);
            Mirror(places, t[i := e], Rewritten(files, t[i].value.filename, e.value.filename, contents), foreign)
  {
    hide FilenameFor, ProfileOf, Utf8;
    var u, path, gone := t[i := e], e.value.filename, t[i].value.filename;
    var after := Rewritten(files, gone, path, Utf8(ProfileOf(e.value).value));
    OwnFilesReplaced(t, i, e);
    FreeOfOthers(t, files, i, path);
    if gone != "" {
      OwnFilesAt(t, i);
    } else {
      assert "" !in OwnFiles(t);
    }
    assert OwnFiles(u) !! foreign.Keys && after.Keys == OwnFiles(u) + foreign.Keys;
    RewrittenHolds(places, t, files, i, e);
    assert DistinctFiles(u);
  }

  lemma {:induction false} RewrittenHolds(places: Places, t: Table<Connection>, files: FileMap, i: nat,
                                          e: Entry<Connection>)
    requires AllHold(places, t, files) && i < |t| && !e.value.unsaved
    requires FilenameFor(places, e.value) == Ok(e.value.filename) && ProfileOf(e.value).Ok?
    requires NotOthers(t, i, {e.value.filename, t[i].value.filename})
    requires e.value.filename != "" && "" !in files
    ensures var contents := Utf8(ProfileOf(e.value).value);
            AllHold(places, t[i := e], Rewritten(files, t[i].value.filename, e.value.filename, contents))
  {
    hide FilenameFor, ProfileOf, Utf8;
    var u := t[i := e];
    var after := Rewritten(files, t[i].value.filename, e.value.filename, Utf8(ProfileOf(e.value).value));
    forall j | 0 <= j < |u| && u[j].value.origin == User ensures FileHolds(places, u[j].value, after) {
      if j != i {
        assert u[j] == t[j] && FileHolds(places, t[j].value, files);
      }
    }
  }

  /** A record that takes a name that is not free breaks the mirror, whatever is in the files. */
  lemma {:induction false} ClashBreaksMirror(places: Places, t: Table<Connection>, files: FileMap, foreign: FileMap,
                                             i: nat, e: Entry<Connection>, after: FileMap)
    requires Mirror(places, t, files, foreign) && i < |t| && t[i].value.origin == User
    requires HasFile(e.value) && !Free(files, t[i].value.filename, e.value.filename)
    ensures !Mirror(places, t[i := e], after, foreign)
  {
    var u, path := t[i := e], e.value.filename;
    OwnFilesAt(u, i);
    if path in OwnFiles(t) {
      var j :| 0 <= j < |t| && HasFile(t[j].value) && t[j].value.filename == path;
      assert j != i && u[j] == t[j] && u[i] == e;
      assert !DistinctFiles(u);
    }
  }

  /** Changing only what is in memory keeps the mirror. */
  lemma {:induction false} UnsavedKeepsMirror(places: Places, t: Table<Connection>, files: FileMap, foreign: FileMap,
                                              i: nat, e: Entry<Connection>)
    requires Mirror(places, t, files, foreign) && i < |t| && t[i].value.origin == User
    requires e.value.origin == User && e.value.unsaved && e.value.filename == t[i].value.filename
    ensures Mirror(places, t[i := e], files, foreign)
  {
    hide FilenameFor, ProfileOf;
    var u := t[i := e];
    assert SameFiles(t, u);
    OwnFilesSame(t, u);
    forall j | 0 <= j < |u| && u[j].value.origin == User ensures FileHolds(places, u[j].value, files) {
      assert FileHolds(places, t[j].value, files);
      if j == i && u[j].value.filename != "" {
        OwnFilesAt(t, i);
      }
    }
  }

  ghost predicate SameFiles(t: Table<Connection>, u: Table<Connection>) {
    && |t| == |u|
    && (forall j :: 0 <= j < |t| ==> HasFile(u[j].value) == HasFile(t[j].value))
    && (forall j :: 0 <= j < |t| ==> u[j].value.filename == t[j].value.filename)
  }

  lemma {:induction false} OwnFilesSame(t: Table<Connection>, u: Table<Connection>)
    requires SameFiles(t, u)
    ensures OwnFiles(u) == OwnFiles(t)
  {
    forall p ensures p in OwnFiles(u) <==> p in OwnFiles(t) {
      if p in OwnFiles(t) {
        var j :| 0 <= j < |t| && HasFile(t[j].value) && t[j].value.filename == p;
        OwnFilesAt(u, j);
      }
      if p in OwnFiles(u) {
        var j :| 0 <= j < |u| && HasFile(u[j].value) && u[j].value.filename == p;
        OwnFilesAt(t, j);
      }
    }
  }

  /** Removing a record together with its file keeps the mirror. */
  lemma {:induction false} DeleteKeepsMirror(places: Places, t: Table<Connection>, files: FileMap, foreign: FileMap,
                                             i: nat)
    requires Mirror(places, t, files, foreign) && i < |t| && t[i].value.origin == User
    ensures Mirror(places, t[..i] + t[i + 1..], files - {t[i].value.filename}, foreign)
  {
    hide AllHold, HasFile;
    if HasFile(t[i].value) {
      OwnFilesAt(t, i);
    }
    OwnFilesRemoved(t, i);
    NoEmptyName(t);
    OthersStillHold(places, t, files, i);
    HasFileOf(t[i].value);
  }

  lemma {:induction false} HasFileOf(c: Connection)
    requires c.origin == User
    ensures HasFile(c) <==> c.filename != ""
  {
  }

  lemma {:induction false} NoEmptyName(t: Table<Connection>)
    ensures "" !in OwnFiles(t)
  {
  }

  lemma {:induction false} OthersStillHold(places: Places, t: Table<Connection>, files: FileMap, i: nat)
    requires AllHold(places, t, files) && DistinctFiles(t) && i < |t| && t[i].value.origin == User
    requires "" !in files
    ensures AllHold(places, t[..i] + t[i + 1..], files - {t[i].value.filename})
  {
    hide FilenameFor, ProfileOf;
    var u, gone := t[..i] + t[i + 1..], t[i].value.filename;
    forall j | 0 <= j < |u| && u[j].value.origin == User ensures FileHolds(places, u[j].value, files - {gone}) {
      var k := if j < i then j else j + 1;
      assert u[j] == t[k] && FileHolds(places, t[k].value, files);
      assert HasFile(t[k].value) && HasFile(t[i].value) ==> t[k].value.filename != gone;
    }
  }

  lemma {:induction false} OwnFilesRemoved(t: Table<Connection>, i: nat)
    requires i < |t| && DistinctFiles(t) && t[i].value.origin == User
    ensures OwnFiles(t[..i] + t[i + 1..]) == OwnFiles(t) - {t[i].value.filename}
    ensures DistinctFiles(t[..i] + t[i + 1..])
  {
    var u, gone := t[..i] + t[i + 1..], t[i].value.filename;
    assert forall j :: 0 <= j < |u| ==> u[j] == t[if j < i then j else j + 1];
    forall p ensures p in OwnFiles(u) <==> p in OwnFiles(t) && p != gone {
      if p in OwnFiles(u) {
        var j :| 0 <= j < |u| && HasFile(u[j].value) && u[j].value.filename == p;
        OwnFilesAt(t, if j < i then j else j + 1);
      }
      if p in OwnFiles(t) && p != gone {
        var j :| 0 <= j < |t| && HasFile(t[j].value) && t[j].value.filename == p;
        OwnFilesAt(u, if j < i then j else j - 1);
      }
    }
  }

  /** A new record without a file changes nothing about the files. */
  lemma {:induction false} AppendKeepsMirror(places: Places, t: Table<Connection>, files: FileMap, foreign: FileMap,
                                             e: Entry<Connection>)
    requires Mirror(places, t, files, foreign)
    requires e.value.unsaved && e.value.filename == ""
    ensures Mirror(places, t + [e], files, foreign)
  {
    hide FilenameFor, ProfileOf;
    var u := t + [e];
    assert OwnFiles(u) == OwnFiles(t) by {
      assert forall x :: x in u <==> x in t || x == e;
    }
    assert DistinctFiles(u);
  }

  // ------------------------------------------------------------------ operations

  /** Writing this record in place of one stored under `oldName` goes well: it is not written at all,
      or its name is free and the old file, if the name changed, can be removed. */
  predicate Safe(places: Places, faults: Faults, files: FileMap, oldName: string, updated: Connection) {
    updated.unsaved || (
      match Target(places, faults, updated)
      case Err(_) => true
      case Ok(path) =>
        && Free(files, oldName, path)
        && (oldName in {"", path} || oldName !in files || oldName !in faults.undeletable))
  }

  lemma {:induction false} EditKeepsPlace(c: Connection, edit: Edit)
    ensures Edited(c, edit).origin == c.origin && Edited(c, edit).filename == c.filename
  {
  }

  /** The name and the text of a profile do not depend on where the record is stored. */
  lemma {:induction false} ProfileIgnoresName(places: Places, c: Connection, path: string)
    ensures var d := c.(filename := path);
            FilenameFor(places, d) == FilenameFor(places, c) && ProfileOf(d) == ProfileOf(c)
  {
    var d := c.(filename := path);
    assert d.Ssid() == c.Ssid() && d.Passphrase() == c.Passphrase() && d.InterfaceName() == c.InterfaceName();
    assert d.Autoconnect() == c.Autoconnect() && d.IsHidden() == c.IsHidden();
    hide Join, EncodeIwdName, Section, Pair, Passphrase, NetdevKind;
  }

  /** What `Prepared` does to the files when nothing fails. */
  lemma {:induction false} PreparedRewrites(places: Places, faults: Faults, files: FileMap, existing: Connection,
                                            updated: Connection)
    requires !updated.unsaved && Target(places, faults, updated).Ok?
         && Safe(places, faults, files, existing.filename, updated)
    requires "" !in files
    ensures var path := Target(places, faults, updated).value;
            Prepared(places, faults, files, existing, updated)
            == Written(Rewritten(files, existing.filename, path, Utf8(ProfileOf(updated).value)),
                       Ok(updated.(filename := path)))
  {
    hide ProfileOf, Utf8, FilenameFor;
    var path := Target(places, faults, updated).value;
    var written := files[path := Utf8(ProfileOf(updated).value)];
    if existing.filename !in written {
      assert written - {existing.filename} == written;
    }
  }

  /** One edit of a user record keeps the mirror when it is safe. */
  lemma {:induction false} EditKeepsMirror(places: Places, faults: Faults, s: Store, foreign: FileMap, path: string,
                                           edit: Edit)
    requires Mirror(places, s.state.connections, s.files, foreign)
    requires Refusal(s.state, path, edit).None?
    requires var c := Lookup(s.state.connections, path).value.value;
             c.origin == User && Safe(places, faults, s.files, c.filename, Edited(c, edit))
    ensures var after := AfterEdit(places, faults, s, path, edit).store;
            Mirror(places, after.state.connections, after.files, foreign)
  {
    hide Mirror, Target, ProfileOf, FilenameFor, Utf8, Rewritten;
    var t := s.state.connections;
    var i := Position(t, path);
    var c := t[i].value;
    var updated := Edited(c, edit);
    EditKeepsPlace(c, edit);
    hide Edited;
    if updated.unsaved {
      UnsavedKeepsMirror(places, t, s.files, foreign, i, Entry(path, updated));
    } else if Target(places, faults, updated).Ok? {
      StoredRecord(places, faults, updated);
      NoEmptyFile(places, t, s.files, foreign);
      PreparedRewrites(places, faults, s.files, c, updated);
      RewriteKeepsMirror(places, t, s.files, foreign, i,
                         Entry(path, updated.(filename := Target(places, faults, updated).value)));
    }
  }

  lemma {:induction false} NoEmptyFile(places: Places, t: Table<Connection>, files: FileMap, foreign: FileMap)
    requires Mirror(places, t, files, foreign)
    ensures "" !in files
  {
    NoEmptyName(t);
  }

  /** The record that goes with a written file. */
  lemma {:induction false} StoredRecord(places: Places, faults: Faults, c: Connection)
    requires Target(places, faults, c).Ok?
    ensures var path := Target(places, faults, c).value;
            var d := c.(filename := path);
            && path != "" && FilenameFor(places, d) == Ok(path) && FilenameFor(places, c) == Ok(path)
            && ProfileOf(d).Ok? && ProfileOf(d) == ProfileOf(c)
  {
    hide FilenameFor, ProfileOf;
    var path := Target(places, faults, c).value;
    ProfileIgnoresName(places, c, path);
    FilenameParts(places, c, path);
  }

  /** The record's own file cannot be removed although the record is written under another name. */
  predicate IsStuck(places: Places, faults: Faults, files: FileMap, oldName: string, updated: Connection) {
    && !updated.unsaved && Target(places, faults, updated).Ok?
    && oldName !in {"", Target(places, faults, updated).value} && oldName in files && oldName in faults.undeletable
  }

  /** An edit that is written keeps the mirror exactly when the name is free, unless its old
      file is stuck. */
  lemma {:induction false} EditKeepsMirrorIff(places: Places, faults: Faults, s: Store, foreign: FileMap,
                                              path: string, edit: Edit)
    requires Mirror(places, s.state.connections, s.files, foreign)
    requires Refusal(s.state, path, edit).None?
    requires var c := Lookup(s.state.connections, path).value.value;
             c.origin == User && !IsStuck(places, faults, s.files, c.filename, Edited(c, edit))
    ensures var c := Lookup(s.state.connections, path).value.value;
            var after := AfterEdit(places, faults, s, path, edit).store;
            Mirror(places, after.state.connections, after.files, foreign)
            <==> Safe(places, faults, s.files, c.filename, Edited(c, edit))
  {
    hide Mirror, Target, ProfileOf, FilenameFor, Utf8, Rewritten, Free;
    var t := s.state.connections;
    var i := Position(t, path);
    var c := t[i].value;
    var updated := Edited(c, edit);
    EditKeepsPlace(c, edit);
    hide Edited;
    if Safe(places, faults, s.files, c.filename, updated) {
      EditKeepsMirror(places, faults, s, foreign, path, edit);
    } else {
      StoredRecord(places, faults, updated);
      var target := Target(places, faults, updated).value;
      ClashBreaksMirror(places, t, s.files, foreign, i, Entry(path, updated.(filename := target)),
                        AfterEdit(places, faults, s, path, edit).store.files);
    }
  }

  /** The name belongs to a user record that is not saved, whose file may hold anything. */
  ghost predicate OfUnsaved(t: Table<Connection>, path: string) {
    exists i :: 0 <= i < |t| && HasFile(t[i].value) && t[i].value.filename == path && t[i].value.unsaved
  }

  /** When the old file is stuck the operation fails and no record changes, but the new file has been
      written. That goes unnoticed exactly when the file was there with the same text, or was that of
      a record not saved; otherwise the files no longer mirror the records. */
  lemma {:induction false} StuckFileBreaksMirror(places: Places, faults: Faults, s: Store, foreign: FileMap,
                                                 path: string, edit: Edit)
    requires Mirror(places, s.state.connections, s.files, foreign) && Refusal(s.state, path, edit).None?
    requires var c := Lookup(s.state.connections, path).value.value;
             IsStuck(places, faults, s.files, c.filename, Edited(c, edit))
    ensures var c := Lookup(s.state.connections, path).value.value;
            var target, text := Target(places, faults, Edited(c, edit)).value, Utf8(ProfileOf(Edited(c, edit)).value);
            var after := AfterEdit(places, faults, s, path, edit);
            && after.result.Err? && after.store == Store(s.state, s.files[target := text])
            && (Mirror(places, s.state.connections, after.store.files, foreign)
                <==> target in s.files && (s.files[target] == text || OfUnsaved(s.state.connections, target)))
  {
    NoEmptyFile(places, s.state.connections, s.files, foreign);
    var c := Lookup(s.state.connections, path).value.value;
    TargetPrints(places, faults, Edited(c, edit));
    hide Target, ProfileOf, FilenameFor, Utf8, Edited, Mirror, AllHold;
    var target, text := Target(places, faults, Edited(c, edit)).value, Utf8(ProfileOf(Edited(c, edit)).value);
    OverwrittenFile(places, s.state.connections, s.files, foreign, target, text);
  }

  lemma {:induction false} TargetPrints(places: Places, faults: Faults, c: Connection)
    ensures Target(places, faults, c).Ok? ==> ProfileOf(c).Ok?
  {
    hide ProfileOf, FilenameFor;
  }

  /** Which file may be written over, with which text, without any record noticing. */
  lemma {:induction false} OverwrittenFile(places: Places, t: Table<Connection>, files: FileMap, foreign: FileMap,
                                           target: string, text: seq<byte>)
    requires Mirror(places, t, files, foreign)
    ensures Mirror(places, t, files[target := text], foreign)
            <==> target in files && (files[target] == text || OfUnsaved(t, target))
  {
    hide FilenameFor, ProfileOf, Utf8;
    var after := files[target := text];
    if target in files && files[target] == text {
      assert after == files;
    } else if target in files && OfUnsaved(t, target) {
      var i :| 0 <= i < |t| && HasFile(t[i].value) && t[i].value.filename == target && t[i].value.unsaved;
      OwnFilesAt(t, i);
      forall j | 0 <= j < |t| && t[j].value.origin == User ensures FileHolds(places, t[j].value, after) {
        assert FileHolds(places, t[j].value, files);
        if j != i && HasFile(t[j].value) {
          assert t[j].value.filename != target;
        }
      }
    } else if target in files {
      WrittenOverSaved(places, t, files, foreign, target, text);
    } else {
      assert target in after.Keys;
    }
  }

  lemma {:induction false} WrittenOverSaved(places: Places, t: Table<Connection>, files: FileMap, foreign: FileMap,
                                            target: string, text: seq<byte>)
    requires Mirror(places, t, files, foreign) && target in files && files[target] != text && !OfUnsaved(t, target)
    ensures !Mirror(places, t, files[target := text], foreign)
  {
    hide FilenameFor, ProfileOf, Utf8;
    if target in OwnFiles(t) {
      var j :| 0 <= j < |t| && HasFile(t[j].value) && t[j].value.filename == target;
      assert !t[j].value.unsaved;
      assert FileHolds(places, t[j].value, files);
      assert !FileHolds(places, t[j].value, files[target := text]);
    }
  }

  lemma {:induction false} AddKeepsMirror(places: Places, faults: Faults, s: Store, foreign: FileMap,
                                          settings: Settings, unsaved: bool)
    requires Mirror(places, s.state.connections, s.files, foreign)
    requires NewRecord(settings, unsaved).Ok? ==> Safe(places, faults, s.files, "", NewRecord(settings, unsaved).value)
    ensures var after := AfterAdd(places, faults, s, settings, unsaved).store;
            Mirror(places, after.state.connections, after.files, foreign)
  {
    hide Mirror, Target, ProfileOf, FilenameFor, Utf8, SettingsPath;
    if NewRecord(settings, unsaved).Ok? {
      var t, record := s.state.connections, NewRecord(settings, unsaved).value;
      var path := SettingsPath(s.state.nextSettingsId);
      var blank := Entry(path, record.(unsaved := true));
      AppendKeepsMirror(places, t, s.files, foreign, blank);
      if !unsaved && Target(places, faults, record).Ok? {
        StoredRecord(places, faults, record);
        NoEmptyFile(places, t, s.files, foreign);
        var stored := Entry(path, record.(filename := Target(places, faults, record).value));
        RewriteKeepsMirror(places, t + [blank], s.files, foreign, |t|, stored);
        assert (t + [blank])[|t| := stored] == t + [stored];
      }
    }
  }

  /** Adding a saved record that asks for the file of another, such as a second Wi-Fi network with
      the same SSID and security, is what the mirror does not survive. */
  lemma {:induction false} SecondRecordTakesTheFile(places: Places, faults: Faults, s: Store, foreign: FileMap,
                                                    settings: Settings, i: nat)
    requires Mirror(places, s.state.connections, s.files, foreign) && i < |s.state.connections|
    requires var c := s.state.connections[i].value;
             && c.origin == User && !c.unsaved
             && NewRecord(settings, false).Ok? && Target(places, faults, NewRecord(settings, false).value).Ok?
             && SameFile(c, NewRecord(settings, false).value)
    ensures var after := AfterAdd(places, faults, s, settings, false);
            after.result.Ok? && !Mirror(places, after.store.state.connections, after.store.files, foreign)
  {
    hide ProfileOf, FilenameFor, Utf8, SettingsPath, SameFile;
    var t, c, record := s.state.connections, s.state.connections[i].value, NewRecord(settings, false).value;
    var target, path := Target(places, faults, record).value, SettingsPath(s.state.nextSettingsId);
    assert FileHolds(places, c, s.files);
    StoredRecord(places, faults, record);
    FilenamesCollide(places, c, record, c.filename, target);
    var u := t + [Entry(path, record.(filename := target))];
    assert u[i] == t[i] && HasFile(u[i].value) && HasFile(u[|t|].value) && i < |t| < |u|;
    assert !DistinctFiles(u);
  }

  /** Adding a record keeps the mirror exactly when it is not saved, cannot be written, or gets a name
      that no file has: not another record's, saved or not, and not anybody else's. */
  lemma {:induction false} AddKeepsMirrorIff(places: Places, faults: Faults, s: Store, foreign: FileMap,
                                             settings: Settings,
                                             unsaved: bool)
    requires Mirror(places, s.state.connections, s.files, foreign) && NewRecord(settings, unsaved).Ok?
    ensures var after := AfterAdd(places, faults, s, settings, unsaved).store;
            Mirror(places, after.state.connections, after.files, foreign)
            <==> Safe(places, faults, s.files, "", NewRecord(settings, unsaved).value)
  {
    hide Mirror, ProfileOf, FilenameFor, Utf8, SettingsPath;
    var record := NewRecord(settings, unsaved).value;
    if Safe(places, faults, s.files, "", record) {
      AddKeepsMirror(places, faults, s, foreign, settings, unsaved);
    } else {
      var t, path := s.state.connections, SettingsPath(s.state.nextSettingsId);
      var blank := Entry(path, record.(unsaved := true));
      AppendKeepsMirror(places, t, s.files, foreign, blank);
      StoredRecord(places, faults, record);
      var stored := Entry(path, record.(filename := Target(places, faults, record).value));
      assert (t + [blank])[|t| := stored] == t + [stored];
      ClashBreaksMirror(places, t + [blank], s.files, foreign, |t|, stored,
                        AfterAdd(places, faults, s, settings, unsaved).store.files);
    }
  }

  lemma {:induction false} RemoveKeepsMirror(places: Places, faults: Faults, s: Store, foreign: FileMap, path: string)
    requires Mirror(places, s.state.connections, s.files, foreign)
    requires Lookup(s.state.connections, path).Some? ==> Lookup(s.state.connections, path).value.value.origin == User
    ensures var after := AfterDelete(faults, s, path).store;
            Mirror(places, after.state.connections, after.files, foreign)
  {
    hide Mirror;
    if Lookup(s.state.connections, path).Some? {
      DeleteKeepsMirror(places, s.state.connections, s.files, foreign, Position(s.state.connections, path));
    }
  }

  // ------------------------------------------------------------------ runs

  datatype Op =
    | Add(settings: Settings, unsaved: bool)
    | Change(path: string, edit: Edit)
    | Delete(path: string)

  function Do(places: Places, faults: Faults, s: Store, op: Op): Store {
    match op
    case Add(settings, unsaved) => AfterAdd(places, faults, s, settings, unsaved).store
    case Change(path, edit) => AfterEdit(places, faults, s, path, edit).store
    case Delete(path) => AfterDelete(faults, s, path).store
  }

  /** The operation concerns a user record, and what it writes clashes with no other file. */
  predicate Allowed(places: Places, faults: Faults, s: Store, op: Op) {
    match op
    case Add(settings, unsaved) =>
      NewRecord(settings, unsaved).Ok? ==> Safe(places, faults, s.files, "", NewRecord(settings, unsaved).value)
    case Change(path, edit) =>
      Refusal(s.state, path, edit).None? ==>
        var c := Lookup(s.state.connections, path).value.value;
        c.origin == User && Safe(places, faults, s.files, c.filename, Edited(c, edit))
    case Delete(path) =>
      Lookup(s.state.connections, path).Some? ==> Lookup(s.state.connections, path).value.value.origin == User
  }

  /** An operation with the paths that fail while it is at work. */
  datatype Turn = Turn(op: Op, faults: Faults)

  function DoAll(places: Places, s: Store, turns: seq<Turn>): Store {
    if turns == [] then s
    else
      var last := turns[|turns| - 1];
      Do(places, last.faults, DoAll(places, s, turns[..|turns| - 1]), last.op)
  }

  predicate AllAllowed(places: Places, s: Store, turns: seq<Turn>) {
    turns == [] || (
      var front, last := turns[..|turns| - 1], turns[|turns| - 1];
      AllAllowed(places, s, front) && Allowed(places, last.faults, DoAll(places, s, front), last.op))
  }

  lemma {:induction false} OpKeepsMirror(places: Places, faults: Faults, s: Store, foreign: FileMap, op: Op)
    requires Mirror(places, s.state.connections, s.files, foreign) && Allowed(places, faults, s, op)
    ensures var after := Do(places, faults, s, op);
            Mirror(places, after.state.connections, after.files, foreign)
  {
    hide Mirror, Safe, Edited, AfterAdd, AfterDelete;
    match op {
      case Add(settings, unsaved) => AddKeepsMirror(places, faults, s, foreign, settings, unsaved);
      case Change(path, edit) =>
        if Refusal(s.state, path, edit).None? {
          EditKeepsMirror(places, faults, s, foreign, path, edit);
        }
      case Delete(path) => RemoveKeepsMirror(places, faults, s, foreign, path);
    }
  }

  /** After any run of allowed operations, whatever fails during each of them, every saved user record's
      file holds exactly its printed profile, no two records share a file, and no other file has appeared,
      changed or gone. */
  lemma {:induction false} RunKeepsMirror(places: Places, s: Store, foreign: FileMap, turns: seq<Turn>)
    requires Mirror(places, s.state.connections, s.files, foreign) && AllAllowed(places, s, turns)
    ensures var after := DoAll(places, s, turns);
            Mirror(places, after.state.connections, after.files, foreign)
  {
    hide Mirror, Allowed, Do;
    if turns != [] {
      var front, last := turns[..|turns| - 1], turns[|turns| - 1];
      RunKeepsMirror(places, s, foreign, front);
      OpKeepsMirror(places, last.faults, DoAll(places, s, front), foreign, last.op);
    }
  }
}
