/** The edits of a connection taken apart into their accesses to the files and to the runtime, and what
    two of them leave when they cross. */
module SystemEdits {
  import opened Text
  import opened Tables
  import opened RuntimeState
  import opened System
  import opened SystemRuns
  import opened ProfileText
  import opened ProfileStore
  import opened ProfileOutcomes

  function Overwrite(path: string, c: Connection): Action {
    Action.Update(path, c)
  }

  /** The file accesses that prepare a record, in their order. */
  function FileActions(places: Places, faults: Faults, files: FileMap, existing: Connection, updated: Connection)
    : seq<Action>
  {
    if updated.unsaved || Target(places, faults, updated).Err? then []
    else
      var path := Target(places, faults, updated).value;
      var write := [WriteFile(path, Utf8(ProfileOf(updated).value))];
      if existing.filename in {"", path} || existing.filename !in files || existing.filename in faults.undeletable
      then write
      else write + [DeleteFile(existing.filename)]
  }

  lemma {:induction false} FilesPrepared(s: Sys, places: Places, faults: Faults, existing: Connection,
                                         updated: Connection)
    ensures Run(s, FileActions(places, faults, s.files, existing, updated))
         == s.(files := Prepared(places, faults, s.files, existing, updated).files)
  {
    hide FilenameFor, Utf8;
    if updated.unsaved || Target(places, faults, updated).Err? {
      NoAction(s);
      hide Run;
    } else {
      var path := Target(places, faults, updated).value;
      var write := WriteFile(path, Utf8(ProfileOf(updated).value));
      OneAction(s, write);
      RunSnoc(s, [write], DeleteFile(existing.filename));
      hide Run, Target, ProfileOf;
    }
  }

  /** An edit is a run: its file accesses, and then, if they work, one update of the runtime. */
  lemma {:induction false} EditIsARun(s: Sys, places: Places, faults: Faults, path: string, edit: Edit)
    returns (actions: seq<Action>)
    ensures var done := AfterEdit(places, faults, ProfileStore.Store(s.rt, s.files), path, edit);
            Run(s, actions) == s.(rt := done.store.state, files := done.store.files)
  {
    hide Prepared, Edited, Lookup, AfterUpdateConnection, FileActions;
    if Refusal(s.rt, path, edit).Some? {
      actions := [];
      NoAction(s);
    } else {
      hide Refusal;
      var existing := Lookup(s.rt.connections, path).value.value;
      var updated := Edited(existing, edit);
      var w := Prepared(places, faults, s.files, existing, updated);
      actions := FileActions(places, faults, s.files, existing, updated);
      FilesPrepared(s, places, faults, existing, updated);
      if w.result.Ok? {
        RunSnoc(s, actions, Overwrite(path, w.result.value));
        actions := actions + [Overwrite(path, w.result.value)];
      }
      hide Run;
    }
  }

  // ------------------------------------------------------------- two edits that cross

  /** How the file accesses and the updates of two edits follow each other, the first to write coming first. */
  datatype Order = OneAfterTheOther | StoredAsWritten | StoredCrosswise

  function Interleaved(order: Order, path: string, name: string, a: Connection, x: seq<byte>, b: Connection,
                       y: seq<byte>)
    : seq<Action>
  {
    match order
    case OneAfterTheOther => [WriteFile(name, x), Overwrite(path, a), WriteFile(name, y), Overwrite(path, b)]
    case StoredAsWritten => [WriteFile(name, x), WriteFile(name, y), Overwrite(path, a), Overwrite(path, b)]
    case StoredCrosswise => [WriteFile(name, x), WriteFile(name, y), Overwrite(path, b), Overwrite(path, a)]
  }

  /** Two edits of one record under one name, from any state. The file is always that of the edit that
      wrote last. It is the file of the record exactly when that edit stored last as well, or both print
      the same profile. */
  lemma {:induction false} InterleavedEdits(s: Sys, order: Order, path: string, name: string, a: Connection,
                                            b: Connection)
    requires Lookup(s.rt.connections, path).Some? && ProfileOf(a).Ok? && ProfileOf(b).Ok?
    ensures var x, y := Utf8(ProfileOf(a).value), Utf8(ProfileOf(b).value);
            var r := Run(s, Interleaved(order, path, name, a, x, b, y));
            var last := if order == StoredCrosswise then a else b;
            && Lookup(r.rt.connections, path) == Some(Entry(path, last))
            && name in r.files && r.files[name] == y
            && (r.files[name] == Utf8(ProfileOf(last).value)
                <==> order != StoredCrosswise || ProfileOf(a) == ProfileOf(b))
  {
    var x, y := Utf8(ProfileOf(a).value), Utf8(ProfileOf(b).value);
    var first, second := if order == StoredCrosswise then b else a, if order == StoredCrosswise then a else b;
    hide Utf8, ProfileOf, Lookup;
    StoredLast(s.rt, path, first, second);
    if x == y {
      Utf8Injective(ProfileOf(a).value, ProfileOf(b).value);
    }
    hide AfterUpdateConnection, Run, Interleaved;
    InterleavedRun(s, order, path, name, a, x, b, y);
  }

  lemma {:induction false} InterleavedRun(s: Sys, order: Order, path: string, name: string, a: Connection, x: seq<byte>,
                                          b: Connection, y: seq<byte>)
    ensures var first, second := if order == StoredCrosswise then b else a, if order == StoredCrosswise then a else b;
            var r := Run(s, Interleaved(order, path, name, a, x, b, y));
            && r.rt == AfterUpdateConnection(AfterUpdateConnection(s.rt, path, first), path, second)
            && r.files == s.files[name := y]
  {
    hide AfterUpdateConnection, Run;
    match order {
      case OneAfterTheOther =>
        FourActions(s, WriteFile(name, x), Overwrite(path, a), WriteFile(name, y), Overwrite(path, b));
      case StoredAsWritten =>
        FourActions(s, WriteFile(name, x), WriteFile(name, y), Overwrite(path, a), Overwrite(path, b));
      case StoredCrosswise =>
        FourActions(s, WriteFile(name, x), WriteFile(name, y), Overwrite(path, b), Overwrite(path, a));
    }
  }

  lemma {:induction false} StoredLast(s: State, path: string, first: Connection, second: Connection)
    requires Lookup(s.connections, path).Some?
    ensures Lookup(AfterUpdateConnection(AfterUpdateConnection(s, path, first), path, second).connections, path)
         == Some(Entry(path, second))
  {
    ChangedTwice(s, path, first, second);
    ChangedTwice(s, path, second, second);
    hide Lookup, AfterUpdateConnection;
  }
}
