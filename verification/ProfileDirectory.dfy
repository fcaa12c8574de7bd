/** The two profile directories as one table of files, with the snapshot that a checkpoint
    takes of them and the restore that a rollback makes. */
module ProfileDirectory {
  import opened Text
  import opened RuntimeState

  class Directory {
    var files: map<string, seq<byte>>
    /** Paths on which removing, or writing, fails. */
    const undeletable: set<string>
    const unwritable: set<string>

    constructor (files: map<string, seq<byte>>, undeletable: set<string>, unwritable: set<string>)
      ensures this.files == files && this.undeletable == undeletable && this.unwritable == unwritable
    {
      this.files, this.undeletable, this.unwritable := files, undeletable, unwritable;
    }

    method Write(path: string, contents: seq<byte>) returns (ok: bool)
      modifies this
      ensures ok == (path !in unwritable)
      ensures files == if ok then old(files)[path := contents] else old(files)
    {
      ok := path !in unwritable;
      if ok {
        files := files[path := contents];
      }
    }

    /** Removing a file; the outcome also tells whether anything failed. */
    method Delete(path: string) returns (ok: bool)
      modifies this
      ensures ok == (path !in undeletable)
      ensures files == if ok then old(files) - {path} else old(files)
    {
      ok := path !in undeletable;
      if ok {
        files := files - {path};
      }
    }

    /** The entries of the directories, in whatever order the system lists them. */
    method Discover() returns (paths: seq<string>)
      ensures forall p :: p in paths <==> p in files
      ensures forall i, j :: 0 <= i < j < |paths| ==> paths[i] != paths[j]
    {
      paths := [];
      var rest := files.Keys;
      while rest != {}
        invariant forall p :: p in paths <==> p in files && p !in rest
        invariant rest <= files.Keys
        invariant forall i, j :: 0 <= i < j < |paths| ==> paths[i] != paths[j]
        decreases rest
      {
        var p :| p in rest;
        paths := paths + [p];
        rest := rest - {p};
      }
    }

    /** Reads every file once. */
    method SnapshotConnectionFiles() returns (snapshot: Files)
      ensures FilesOf(snapshot) == files
      ensures forall i, j :: 0 <= i < j < |snapshot| ==> snapshot[i].0 != snapshot[j].0
    {
      hide FilesOf;
      snapshot := [];
      assert FilesOf(snapshot) == map[] by {
        FilesOfNothing();
      }
      var paths := Discover();
      for i := 0 to |paths|
        invariant |snapshot| == i && forall k :: 0 <= k < i ==> snapshot[k].0 == paths[k]
        invariant FilesOf(snapshot) == map p | p in files && p in paths[..i] :: files[p]
      {
        FilesOfSnoc(snapshot, (paths[i], files[paths[i]]));
        assert paths[..i + 1] == paths[..i] + [paths[i]];
        snapshot := snapshot + [(paths[i], files[paths[i]])];
      }
    }

    /** Removes every file that the snapshot does not name, as far as that works. */
    method RemoveUnsaved(snapshot: Files)
      modifies this
      ensures files == Kept(old(files), SavedPaths(snapshot), undeletable)
    {
      var current := Discover();
      ghost var saved := SavedPaths(snapshot);
      for i := 0 to |current|
        invariant forall p :: p in files <==> p in old(files) && (p in current[i..] || p in saved || p in undeletable)
        invariant forall p :: p in files ==> files[p] == old(files)[p]
      {
        assert current[i..] == [current[i]] + current[i + 1..];
        assert current[i] !in current[i + 1..];
        if !IsSaved(snapshot, current[i]) {
          var _ := Delete(current[i]);
        }
      }
    }

    /** Writes the files in turn, stopping at the first write that fails. */
    method WriteAll(snapshot: Files) returns (ok: bool)
      modifies this
      ensures ok <==> FirstUnwritable(snapshot, unwritable) == |snapshot|
      ensures files == old(files) + FilesOf(snapshot[..FirstUnwritable(snapshot, unwritable)])
    {
      for i := 0 to |snapshot|
        invariant i <= FirstUnwritable(snapshot, unwritable)
        invariant files == old(files) + FilesOf(snapshot[..i])
      {
        assert snapshot[..i + 1][..i] == snapshot[..i];
        var written := Write(snapshot[i].0, snapshot[i].1);
        if !written {
          return false;
        }
      }
      ok := true;
    }

    /** Removes what the snapshot does not name, then writes what it names, stopping at the
        first write that fails. With no failing path this leaves exactly the snapshot. */
    method RestoreConnectionFiles(snapshot: Files) returns (ok: bool)
      modifies this
      ensures ok <==> FirstUnwritable(snapshot, unwritable) == |snapshot|
      ensures files == Kept(old(files), SavedPaths(snapshot), undeletable)
                     + FilesOf(snapshot[..FirstUnwritable(snapshot, unwritable)])
      ensures undeletable == {} && unwritable == {} ==> ok && files == FilesOf(snapshot)
    {
      RemoveUnsaved(snapshot);
      ok := WriteAll(snapshot);
      assert snapshot[..|snapshot|] == snapshot;
      FilesOfKeys(snapshot);
    }
  }

  ghost function SavedPaths(snapshot: Files): set<string> {
    set f | f in snapshot :: f.0
  }

  predicate IsSaved(snapshot: Files, path: string)
    ensures IsSaved(snapshot, path) <==> path in SavedPaths(snapshot)
  {
    exists i :: 0 <= i < |snapshot| && snapshot[i].0 == path
  }

  /** The files that survive the removal. */
  ghost function Kept(files: map<string, seq<byte>>, saved: set<string>, undeletable: set<string>)
    : map<string, seq<byte>>
  {
    map p | p in files && (p in saved || p in undeletable) :: files[p]
  }

  /** The position of the first file that cannot be written, or the number of files. */
  function FirstUnwritable(snapshot: Files, unwritable: set<string>): (i: nat)
    ensures i <= |snapshot|
    ensures i < |snapshot| ==> snapshot[i].0 in unwritable
    ensures forall j :: 0 <= j < i ==> snapshot[j].0 !in unwritable
  {
    if snapshot == [] || snapshot[0].0 in unwritable then 0
    else
      var i := FirstUnwritable(snapshot[1..], unwritable);
      assert forall j :: 1 <= j < |snapshot| ==> snapshot[j] == snapshot[1..][j - 1];
      1 + i
  }

  lemma {:induction false} FilesOfNothing()
    ensures FilesOf([]) == map[]
  {
  }

  lemma {:induction false} FilesOfSnoc(listing: Files, file: (string, seq<byte>))
    ensures FilesOf(listing + [file]) == FilesOf(listing)[file.0 := file.1]
  {
    assert (listing + [file])[..|listing|] == listing;
  }

  lemma {:induction false} FilesOfKeys(snapshot: Files)
    ensures FilesOf(snapshot).Keys == SavedPaths(snapshot)
  {
    if snapshot != [] {
      var front, last := snapshot[..|snapshot| - 1], snapshot[|snapshot| - 1];
      assert snapshot == front + [last];
      FilesOfKeys(front);
    }
  }

  /** Restoring what was just read brings the directories back, whatever was written,
      changed or removed in them meanwhile. */
  method SnapshotThenRestore(d: Directory, during: map<string, seq<byte>>) returns (ok: bool)
    requires d.undeletable == {} && d.unwritable == {}
    modifies d
    ensures ok && d.files == old(d.files)
  {
    var snapshot := d.SnapshotConnectionFiles();
    d.files := during;
    ok := d.RestoreConnectionFiles(snapshot);
  }
}
