/** The version counter as a change token, and what Update2 overwrites, under every interleaving. */
module SystemVersion {
  import opened Text
  import opened Tables
  import opened RuntimeState
  import opened System
  import opened SystemSteps
  import opened SystemPaths

  // ------------------------------------------------------------ the version token

  predicate IsLive(s: Sys, path: string) {
    Position(s.rt.connections, path) < |s.rt.connections|
  }

  /** The steps that count a version, told by what makes them possible. */
  predicate Counts(s: Sys, a: Action) {
    match a
    case Insert(c, _) => At(s, c).Allocated?
    case Update(path, _) => IsLive(s, path)
    case Remove(path) => IsLive(s, path)
    case SetHost(_) => true
    case RestoreState(c) => At(s, c).FilesBack?
    case _ => false
  }

  function CountingSteps(s: Sys, actions: seq<Action>): nat {
    if actions == [] then 0
    else
      var front, last := actions[..|actions| - 1], actions[|actions| - 1];
      CountingSteps(s, front) + if Counts(Run(s, front), last) then 1 else 0
  }

  lemma {:induction false} StepMovesVersion(s: Sys, a: Action)
    ensures Step(s, a).rt.versionId == s.rt.versionId + if Counts(s, a) then 1 else 0
  {
    if IsPassive(a) {
      hide Without, Repush, Position, Upsert;
    } else {
      hide StepPassive, Without, Lookup, FilesOf, Slice;
    }
  }

  /** The connection list after one action. */
  function ListAfter(s: Sys, a: Action): Table<Connection> {
    var t := s.rt.connections;
    match a
    case Insert(c, value) => if At(s, c).Allocated? then t + [Entry(At(s, c).path, value)] else t
    case Update(path, value) => if IsLive(s, path) then t[Position(t, path) := Entry(path, value)] else t
    case Remove(path) => Without(t, path)
    case RestoreState(c) => if At(s, c).FilesBack? then At(s, c).record.snapshot.connections else t
    case _ => t
  }

  lemma {:induction false} StepList(s: Sys, a: Action)
    ensures Step(s, a).rt.connections == ListAfter(s, a)
  {
    if IsPassive(a) {
      hide Repush, Upsert;
    } else {
      hide StepPassive, Without, Lookup, FilesOf, Slice;
    }
  }

  lemma {:induction false} StepHostname(s: Sys, a: Action)
    ensures a.SetHost? || Step(s, a).rt.hostname == s.rt.hostname || (a.RestoreState? && At(s, a.c).FilesBack?)
  {
    if IsPassive(a) {
      hide AfterTableEdit, Without, Repush, Position;
    } else {
      hide StepPassive, Without, Lookup, FilesOf, Slice, AfterRestore;
    }
  }

  lemma {:induction false} QuietStepKeepsList(s: Sys, a: Action)
    requires !Counts(s, a)
    ensures Step(s, a).rt.connections == s.rt.connections && Step(s, a).rt.hostname == s.rt.hostname
  {
    StepList(s, a);
    StepHostname(s, a);
    hide Step, Position;
  }

  /** The counter moves by one for each counting step of a run, and by nothing else. Two states of
      one run with equal versions have the same connection list and hostname. */
  lemma {:induction false} VersionIsAChangeToken(s: Sys, actions: seq<Action>)
    ensures var r, r' := s.rt, Run(s, actions).rt;
            && r'.versionId == r.versionId + CountingSteps(s, actions)
            && (r.versionId == r'.versionId ==> r.connections == r'.connections && r.hostname == r'.hostname)
  {
    if actions != [] {
      var front, last := actions[..|actions| - 1], actions[|actions| - 1];
      VersionIsAChangeToken(s, front);
      StepMovesVersion(Run(s, front), last);
      if !Counts(Run(s, front), last) {
        QuietStepKeepsList(Run(s, front), last);
      }
    }
  }

  /** A comparison with a version seen earlier passes exactly when no step of the run since then counted. */
  lemma {:induction false} CheckPassesIff(seen: Sys, untilCheck: seq<Action>)
    ensures Run(seen, untilCheck).rt.versionId == seen.rt.versionId
         <==> forall i :: 0 <= i < |untilCheck| ==> !Counts(Run(seen, untilCheck[..i]), untilCheck[i])
  {
    VersionIsAChangeToken(seen, untilCheck);
    NoneCounted(seen, untilCheck);
  }

  lemma {:induction false} NoneCounted(s: Sys, actions: seq<Action>)
    ensures CountingSteps(s, actions) == 0
         <==> forall i :: 0 <= i < |actions| ==> !Counts(Run(s, actions[..i]), actions[i])
  {
    hide Counts, Run;
    if actions != [] {
      var front, n := actions[..|actions| - 1], |actions| - 1;
      NoneCounted(s, front);
      assert forall i :: 0 <= i < n ==> front[i] == actions[i] && front[..i] == actions[..i];
      assert (forall i :: 0 <= i < |actions| ==> !Counts(Run(s, actions[..i]), actions[i]))
        <==> (forall i :: 0 <= i < n ==> !Counts(Run(s, front[..i]), front[i]))
             && !Counts(Run(s, actions[..n]), actions[n]);
    }
  }

  // ------------------------------------------------------- the record under a path

  /** The steps that decide what is under a path. */
  predicate Concerns(s: Sys, a: Action, path: string) {
    match a
    case Insert(c, _) => At(s, c) == Allocated(path)
    case Update(p, _) => p == path && IsLive(s, path)
    case Remove(p) => p == path
    case RestoreState(c) => At(s, c).FilesBack?
    case _ => false
  }

  /** What such a step leaves under the path. */
  function Leaves(s: Sys, a: Action, path: string): Option<Entry<Connection>> {
    match a
    case Insert(_, value) => Some(Entry(path, value))
    case Update(_, value) => Some(Entry(path, value))
    case RestoreState(c) =>
      if At(s, c).FilesBack? then Lookup(At(s, c).record.snapshot.connections, path) else None
    case _ => None
  }

  predicate Unconcerned(s: Sys, actions: seq<Action>, path: string) {
    actions == [] || (
      var front, last := actions[..|actions| - 1], actions[|actions| - 1];
      Unconcerned(s, front, path) && !Concerns(Run(s, front), last, path))
  }

  /** The last step that concerns the path, if there is one, leaves something else than `seen`. */
  predicate LastLeavesOther(s: Sys, actions: seq<Action>, path: string, seen: Option<Entry<Connection>>) {
    actions != [] && (
      var front, last := actions[..|actions| - 1], actions[|actions| - 1];
      if Concerns(Run(s, front), last, path) then Leaves(Run(s, front), last, path) != seen
      else LastLeavesOther(s, front, path, seen))
  }

  lemma {:induction false} AppendedLookup(t: Table<Connection>, e: Entry<Connection>, path: string)
    ensures e.path != path || path !in PathSet(t)
            ==> Lookup(t + [e], path) == if e.path == path then Some(e) else Lookup(t, path)
  {
    var u, i := t + [e], Position(t, path);
    assert forall k :: 0 <= k < |t| ==> u[k] == t[k];
    assert u[|t|] == e && e in u;
    if i < |t| {
      assert u[i] in u;
    }
    hide PathSet;
  }

  lemma {:induction false} UpdatedLookup(t: Table<Connection>, i: nat, value: Connection, path: string)
    requires i < |t| && i == Position(t, t[i].path)
    ensures var u := t[i := Entry(t[i].path, value)];
            Lookup(u, path) == if path == t[i].path then Some(u[i]) else Lookup(t, path)
  {
    var u := t[i := Entry(t[i].path, value)];
    var k, l := Position(t, path), Position(u, path);
    assert forall j :: 0 <= j < |t| ==> u[j].path == t[j].path;
    assert forall j :: 0 <= j < |t| ==> u[j] in u && t[j] in t;
    assert k == l;
  }

  lemma {:induction false} UnconcernedStep(s: Sys, a: Action, path: string)
    requires Distinct(s.rt.connections) && !Concerns(s, a, path)
    ensures Lookup(Step(s, a).rt.connections, path) == Lookup(s.rt.connections, path)
  {
    var t := s.rt.connections;
    StepList(s, a);
    hide Step, Distinct, Lookup, Without;
    match a {
      case Insert(c, value) =>
        if At(s, c).Allocated? {
          AppendedLookup(t, Entry(At(s, c).path, value), path);
        }
      case Update(p, value) =>
        if IsLive(s, p) {
          UpdatedLookup(t, Position(t, p), value, path);
        }
      case Remove(p) => WithoutFacts(t, p);
      case _ =>
    }
  }

  /** The caller that inserts holds a path that is nowhere yet. */
  lemma {:induction false} ConcernedStep(s: Sys, a: Action, path: string)
    requires PathsInv(s) && Concerns(s, a, path)
    ensures Lookup(Step(s, a).rt.connections, path) == Leaves(s, a, path)
  {
    var t := s.rt.connections;
    StepList(s, a);
    LiveDistinct(s);
    hide PathsInv, Step, Distinct, Without;
    match a {
      case Insert(c, value) =>
        PendingIsNew(s, c);
        AppendedLookup(t, Entry(path, value), path);
      case Update(p, value) => UpdatedLookup(t, Position(t, p), value, path);
      case Remove(p) => WithoutFacts(t, p);
      case RestoreState(c) =>
      case _ =>
    }
  }

  lemma {:induction false} PendingIsNew(s: Sys, c: nat)
    requires PathsInv(s) && At(s, c).Allocated?
    ensures At(s, c).path !in PathSet(s.rt.connections)
  {
    assert c in s.callers && Held(s, s.rt.connections);
  }

  /** After a run the record under a path is another than before exactly when the last step that
      concerns the path leaves another. */
  lemma {:induction false} ChangedIff(s: Sys, actions: seq<Action>, path: string)
    requires PathsInv(s)
    ensures var seen := Lookup(s.rt.connections, path);
            Lookup(Run(s, actions).rt.connections, path) != seen <==> LastLeavesOther(s, actions, path, seen)
    ensures Unconcerned(s, actions, path)
         ==> Lookup(Run(s, actions).rt.connections, path) == Lookup(s.rt.connections, path)
  {
    hide PathsInv, Concerns, Leaves, Lookup, Step;
    if actions != [] {
      var front, last := actions[..|actions| - 1], actions[|actions| - 1];
      ChangedIff(s, front, path);
      RunKeepsPathsInv(s, front);
      if Concerns(Run(s, front), last, path) {
        ConcernedStep(Run(s, front), last, path);
      } else {
        LiveDistinct(Run(s, front));
        UnconcernedStep(Run(s, front), last, path);
      }
    }
  }

  lemma {:induction false} LiveDistinct(s: Sys)
    requires PathsInv(s)
    ensures Distinct(s.rt.connections)
  {
    assert Held(s, s.rt.connections);
  }

  // ---------------------------------------------------------------------- Update2

  /** A client saw the list in `seen`. Update2 clones the record, compares the client's version with
      the current one, and writes the edited clone later. When the comparison passes:
      the clone is the record the client saw; the comparison would pass again at the write exactly
      when no counting step lies between, and the list is then still the one seen; and the write
      overwrites something the client did not see exactly when the last step between check and
      write that concerns the record leaves another one. */
  lemma {:induction false} Update2Overwrites(seen: Sys, untilClone: seq<Action>, untilCheck: seq<Action>,
                                             untilWrite: seq<Action>, path: string)
    requires PathsInv(seen)
    requires Run(Run(seen, untilClone), untilCheck).rt.versionId == seen.rt.versionId
    ensures var cloned := Run(seen, untilClone);
            var checked := Run(cloned, untilCheck);
            var written := Run(checked, untilWrite);
            var record := Lookup(seen.rt.connections, path);
            && Lookup(cloned.rt.connections, path) == record
            && (written.rt.versionId == seen.rt.versionId <==> CountingSteps(checked, untilWrite) == 0)
            && (CountingSteps(checked, untilWrite) == 0 ==> written.rt.connections == seen.rt.connections)
            && (Lookup(written.rt.connections, path) != record <==> LastLeavesOther(checked, untilWrite, path, record))
            && (Unconcerned(checked, untilWrite, path) ==> Lookup(written.rt.connections, path) == record)
  {
    var cloned := Run(seen, untilClone);
    var checked := Run(cloned, untilCheck);
    VersionIsAChangeToken(seen, untilClone);
    VersionIsAChangeToken(cloned, untilCheck);
    VersionIsAChangeToken(checked, untilWrite);
    RunKeepsPathsInv(seen, untilClone);
    RunKeepsPathsInv(cloned, untilCheck);
    ChangedIff(checked, untilWrite, path);
  }

  /** An update by somebody else that comes after the check is lost when nothing later concerns the
      record: the check passed, the write finds that update under the path, and puts the edit of the
      record the client saw over it. Nothing of the update is left. */
  lemma {:induction false} UpdateAfterCheckIsLost(seen: Sys, untilClone: seq<Action>, untilCheck: seq<Action>,
                                                  before: seq<Action>, other: Connection, after: seq<Action>,
                                                  path: string, edit: Connection -> Connection)
    requires PathsInv(seen) && IsLive(seen, path)
    requires var checked := Run(Run(seen, untilClone), untilCheck);
             && checked.rt.versionId == seen.rt.versionId
             && IsLive(Run(checked, before), path)
             && Unconcerned(Run(checked, before + [Update(path, other)]), after, path)
    ensures var cloned := Run(seen, untilClone);
            var written := Run(Run(cloned, untilCheck), before + [Update(path, other)] + after);
            var clone := Lookup(cloned.rt.connections, path);
            && clone.Some? && clone == Lookup(seen.rt.connections, path)
            && Lookup(written.rt.connections, path) == Some(Entry(path, other))
            && written.rt.versionId > seen.rt.versionId
            && Lookup(Step(written, Update(path, edit(clone.value.value))).rt.connections, path)
               == Some(Entry(path, edit(clone.value.value)))
  {
    var cloned := Run(seen, untilClone);
    var checked := Run(cloned, untilCheck);
    hide PathsInv, Step, Unconcerned, Lookup, CountingSteps, LastLeavesOther;
    RunKeepsPathsInv(seen, untilClone);
    RunKeepsPathsInv(cloned, untilCheck);
    Update2Overwrites(seen, untilClone, untilCheck, [], path);
    LookupLive(seen, path);
    OtherIsFound(checked, before, other, after, path);
    var written := Run(checked, before + [Update(path, other)] + after);
    RunKeepsPathsInv(checked, before + [Update(path, other)] + after);
    LookupLive(written, path);
    ConcernedStep(written, Update(path, edit(Lookup(cloned.rt.connections, path).value.value)), path);
  }

  lemma {:induction false} OtherIsFound(s: Sys, before: seq<Action>, other: Connection, after: seq<Action>,
                                        path: string)
    requires PathsInv(s) && IsLive(Run(s, before), path)
    requires Unconcerned(Run(s, before + [Update(path, other)]), after, path)
    ensures var written := Run(s, before + [Update(path, other)] + after);
            Lookup(written.rt.connections, path) == Some(Entry(path, other)) && written.rt.versionId > s.rt.versionId
  {
    var updating := before + [Update(path, other)];
    assert updating[..|before|] == before;
    var u := Run(s, updating);
    RunKeepsPathsInv(s, before);
    RunKeepsPathsInv(s, updating);
    assert u == Step(Run(s, before), Update(path, other));
    ConcernedStep(Run(s, before), Update(path, other), path);
    StepMovesVersion(Run(s, before), Update(path, other));
    hide PathsInv, Step, Lookup;
    VersionIsAChangeToken(s, before);
    RunAppend(s, updating, after);
    ChangedIff(u, after, path);
    VersionIsAChangeToken(u, after);
  }

  lemma {:induction false} LookupLive(s: Sys, path: string)
    ensures Lookup(s.rt.connections, path).Some? <==> IsLive(s, path)
  {
  }
}
