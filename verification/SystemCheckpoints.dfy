/** Checkpoints under every interleaving of manual rollbacks, destroys and timers. */
module SystemCheckpoints {
  import opened Text
  import opened ObjectPaths
  import opened Tables
  import opened RuntimeState
  import opened RuntimeStore
  import opened System
  import opened SystemSteps

  // ------------------------------------------------------- who holds a checkpoint

  /** The checkpoint a caller owns: named and not stored yet, or taken off the table. */
  function Owns(caller: Caller): Option<string> {
    match caller
    case Named(cp, _) => Some(cp)
    case Captured(cp, _, _, _, _) => Some(cp)
    case Filed(cp, _) => Some(cp)
    case Won(cp, _) => Some(cp)
    case FilesBack(cp, _) => Some(cp)
    case _ => None
  }

  function Done(h: History): set<string> {
    (set p | p in h.restored) + h.destroyed
  }

  ghost predicate CheckpointsBelow(paths: set<string>, next: nat) {
    forall id: nat :: id >= next ==> CheckpointPath(id) !in paths
  }

  ghost predicate OwnersApart(s: Sys) {
    forall c, d :: c in s.callers && d in s.callers && c != d && Owns(s.callers[c]).Some?
      ==> Owns(s.callers[c]) != Owns(s.callers[d])
  }

  ghost predicate OwnedElsewhere(s: Sys, cp: string) {
    cp !in PathSet(s.rt.checkpoints) && cp !in Done(s.hist) && CheckpointsBelow({cp}, s.rt.nextCheckpointId)
  }

  ghost predicate OwnersOut(s: Sys) {
    forall c :: c in s.callers && Owns(s.callers[c]).Some? ==> OwnedElsewhere(s, Owns(s.callers[c]).value)
  }

  ghost predicate StoredApart(s: Sys) {
    && Distinct(s.rt.checkpoints)
    && PathSet(s.rt.checkpoints) !! Done(s.hist)
    && CheckpointsBelow(PathSet(s.rt.checkpoints), s.rt.nextCheckpointId)
  }

  ghost predicate DoneOnce(s: Sys) {
    && NoRepeats(s.hist.restored)
    && (forall p :: p in s.hist.restored ==> p !in s.hist.destroyed)
    && CheckpointsBelow(Done(s.hist), s.rt.nextCheckpointId)
  }

  /** Each checkpoint is in one place: owned by one caller, stored, or done with for good. */
  ghost predicate OnePlace(s: Sys) {
    OwnersApart(s) && OwnersOut(s) && StoredApart(s) && DoneOnce(s)
  }

  lemma {:induction false} InitialOnePlace(s: Sys)
    requires Initial(s)
    ensures OnePlace(s)
  {
  }

  /** A caller's move that leaves the table, the counter and the finished ones alone. */
  lemma {:induction false} MoveKeepsOnePlace(s: Sys, s': Sys, c: nat)
    requires OnePlace(s)
    requires s'.rt.checkpoints == s.rt.checkpoints && s'.rt.nextCheckpointId == s.rt.nextCheckpointId
    requires s'.hist.restored == s.hist.restored && s'.hist.destroyed == s.hist.destroyed
    requires OnlyMoves(s, s', c)
    requires c in s'.callers
    requires Owns(s'.callers[c]).None? || (c in s.callers && Owns(s'.callers[c]) == Owns(s.callers[c]))
    ensures OnePlace(s')
  {
  }

  /** A step that leaves callers, checkpoints and history alone. */
  lemma {:induction false} RestKeepsOnePlace(s: Sys, s': Sys)
    requires OnePlace(s)
    requires s'.callers == s.callers && s'.rt.checkpoints == s.rt.checkpoints
    requires s'.rt.nextCheckpointId == s.rt.nextCheckpointId && s'.hist == s.hist
    ensures OnePlace(s')
  {
  }

  lemma {:induction false} NameKeepsOnePlace(s: Sys, c: nat)
    requires OnePlace(s) && At(s, c) == Idle
    ensures OnePlace(Step(s, NameCheckpoint(c)))
  {
    var s' := Step(s, NameCheckpoint(c));
    var id := s.rt.nextCheckpointId;
    forall later: nat | later >= id + 1 ensures CheckpointPath(later) != CheckpointPath(id) {
      if CheckpointPath(later) == CheckpointPath(id) {
        CheckpointPathInjective(later, id);
      }
    }
    assert OwnedElsewhere(s', CheckpointPath(id));
    forall d | d in s.callers && Owns(s.callers[d]).Some?
      ensures Owns(s.callers[d]).value != CheckpointPath(id) && OwnedElsewhere(s', Owns(s.callers[d]).value)
    {
      assert OwnedElsewhere(s, Owns(s.callers[d]).value);
    }
  }

  lemma {:induction false} StoreKeepsOnePlace(s: Sys, c: nat)
    requires OnePlace(s) && At(s, c).Filed?
    ensures OnePlace(StepStore(s, c, At(s, c).cp, At(s, c).record))
  {
    var cp, record := At(s, c).cp, At(s, c).record;
    var s' := StepStore(s, c, cp, record);
    assert c in s.callers && Owns(s.callers[c]) == Some(cp);
    assert OwnedElsewhere(s, cp);
    Snoc(s.rt.checkpoints, Entry(cp, record));
    forall d | d in s'.callers && Owns(s'.callers[d]).Some? ensures OwnedElsewhere(s', Owns(s'.callers[d]).value) {
      assert d != c && s'.callers[d] == s.callers[d];
      assert OwnedElsewhere(s, Owns(s.callers[d]).value);
    }
  }

  lemma {:induction false} WinKeepsOnePlace(s: Sys, c: nat, cp: string)
    requires OnePlace(s) && MayWin(At(s, c), cp)
    ensures OnePlace(StepWin(s, c, cp))
  {
    var s' := StepWin(s, c, cp);
    if Lookup(s.rt.checkpoints, cp).None? {
      MoveKeepsOnePlace(s, s', c);
    } else {
      WithoutFacts(s.rt.checkpoints, cp);
      forall d | d in s.callers && d != c && Owns(s.callers[d]).Some?
        ensures Owns(s.callers[d]).value != cp && OwnedElsewhere(s', Owns(s.callers[d]).value)
      {
        assert OwnedElsewhere(s, Owns(s.callers[d]).value);
      }
      assert OwnedElsewhere(s', cp);
    }
  }

  lemma {:induction false} DestroyKeepsOnePlace(s: Sys, cp: string)
    requires OnePlace(s)
    ensures OnePlace(StepDestroy(s, cp))
  {
    var s' := StepDestroy(s, cp);
    if s' != s {
      WithoutFacts(s.rt.checkpoints, cp);
      assert cp in PathSet(s.rt.checkpoints) && cp !in s.hist.restored;
      assert Done(s'.hist) == Done(s.hist) + {cp};
      forall d | d in s.callers && Owns(s.callers[d]).Some? ensures OwnedElsewhere(s', Owns(s.callers[d]).value) {
        assert OwnedElsewhere(s, Owns(s.callers[d]).value);
      }
    }
  }

  lemma {:induction false} RestoreKeepsOnePlace(s: Sys, c: nat)
    requires OnePlace(s) && At(s, c).FilesBack?
    ensures OnePlace(Step(s, RestoreState(c)))
  {
    var s' := Step(s, RestoreState(c));
    var cp := At(s, c).cp;
    assert c in s.callers && Owns(s.callers[c]) == Some(cp);
    assert OwnedElsewhere(s, cp);
    assert Done(s'.hist) == Done(s.hist) + {cp};
    forall d | d in s'.callers && Owns(s'.callers[d]).Some? ensures OwnedElsewhere(s', Owns(s'.callers[d]).value) {
      assert d != c && s'.callers[d] == s.callers[d];
      assert OwnedElsewhere(s, Owns(s.callers[d]).value);
    }
  }

  lemma {:induction false} AdjustedPaths(t: Table<Checkpoint>, cp: string, now: int, addTimeout: nat)
    ensures var u := AfterAdjust(t, cp, now, addTimeout);
            && |u| == |t| && (forall i :: 0 <= i < |t| ==> u[i].path == t[i].path)
            && PathSet(u) == PathSet(t) && (Distinct(t) ==> Distinct(u))
  {
    var u := AfterAdjust(t, cp, now, addTimeout);
    forall p ensures p in PathSet(u) <==> p in PathSet(t) {
      if p in PathSet(t) {
        assert u[Position(t, p)] in u;
      }
      if p in PathSet(u) {
        assert t[Position(u, p)] in t;
      }
    }
  }

  lemma {:induction false} AdjustKeepsOnePlace(s: Sys, cp: string, addTimeout: nat)
    requires OnePlace(s)
    ensures OnePlace(Step(s, Adjust(cp, addTimeout)))
  {
    var s' := Step(s, Adjust(cp, addTimeout));
    AdjustedPaths(s.rt.checkpoints, cp, s.now, addTimeout);
    forall d | d in s.callers && Owns(s.callers[d]).Some? ensures OwnedElsewhere(s', Owns(s.callers[d]).value) {
      assert OwnedElsewhere(s, Owns(s.callers[d]).value);
    }
  }

  lemma {:induction false} OwnerMoves(s: Sys, a: Action)
    requires a.NextPath? || a.Insert? || a.Capture? || a.CaptureFiles? || a.Tick? || a.Start? || a.RestoreFiles?
             || a.GiveUp?
    requires Step(s, a) != s
    ensures var s' := Step(s, a);
            && s'.rt.checkpoints == s.rt.checkpoints && s'.rt.nextCheckpointId == s.rt.nextCheckpointId
            && s'.hist.restored == s.hist.restored && s'.hist.destroyed == s.hist.destroyed
            && s'.callers == s.callers[a.c := At(s', a.c)] && a.c in s'.callers
            && (Owns(At(s', a.c)).None? || (a.c in s.callers && Owns(At(s', a.c)) == Owns(At(s, a.c))))
  {
    hide FilesOf, SettingsPath, Lookup, RollbackTimeout, Slice, NewCheckpoint;
  }

  /** Moves of one caller that stay with the checkpoint it owns, or drop it. */
  lemma {:induction false} CallerStepKeepsOnePlace(s: Sys, a: Action)
    requires OnePlace(s)
    requires a.NextPath? || a.Insert? || a.Capture? || a.CaptureFiles? || a.Tick? || a.Start? || a.RestoreFiles?
             || a.GiveUp?
    ensures OnePlace(Step(s, a))
  {
    if Step(s, a) != s {
      OwnerMoves(s, a);
      hide OnePlace, Step;
      MoveKeepsOnePlace(s, Step(s, a), a.c);
    }
  }

  lemma {:induction false} StepKeepsOnePlace(s: Sys, a: Action)
    requires OnePlace(s)
    ensures OnePlace(Step(s, a))
  {
    hide OnePlace, Step;
    if Step(s, a) != s {
      StepTaken(s, a);
      match a
      case NameCheckpoint(c) => NameKeepsOnePlace(s, c);
      case Store(c) => StoreKeepsOnePlace(s, c);
      case Win(c, cp) => WinKeepsOnePlace(s, c, cp);
      case Destroy(cp) => DestroyKeepsOnePlace(s, cp);
      case RestoreState(c) => RestoreKeepsOnePlace(s, c);
      case Adjust(cp, addTimeout) => AdjustKeepsOnePlace(s, cp, addTimeout);
      case NextPath(_) => CallerStepKeepsOnePlace(s, a);
      case Insert(_, _) => CallerStepKeepsOnePlace(s, a);
      case Capture(_, _, _) => CallerStepKeepsOnePlace(s, a);
      case CaptureFiles(_, _) => CallerStepKeepsOnePlace(s, a);
      case Tick(_) => CallerStepKeepsOnePlace(s, a);
      case Start(_) => CallerStepKeepsOnePlace(s, a);
      case RestoreFiles(_) => CallerStepKeepsOnePlace(s, a);
      case GiveUp(_) => CallerStepKeepsOnePlace(s, a);
      case _ => PassiveStep(s, a); RestKeepsOnePlace(s, Step(s, a));
    }
  }

  lemma {:induction false} RunKeepsOnePlace(s: Sys, actions: seq<Action>)
    requires OnePlace(s)
    ensures OnePlace(Run(s, actions))
  {
    if actions != [] {
      RunKeepsOnePlace(s, actions[..|actions| - 1]);
      StepKeepsOnePlace(Run(s, actions[..|actions| - 1]), actions[|actions| - 1]);
    }
  }

  /** In every interleaving each checkpoint is restored at most once, and never when it has
      been destroyed; a destroy never succeeds on a checkpoint that was restored. */
  lemma {:induction false} RestoredAtMostOnce(s: Sys, actions: seq<Action>)
    requires Initial(s)
    ensures var h := Run(s, actions).hist;
            NoRepeats(h.restored) && forall cp :: cp in h.destroyed ==> cp !in h.restored
  {
    InitialOnePlace(s);
    RunKeepsOnePlace(s, actions);
  }

  // --------------------------------------------------------- what a rollback restores

  /** The snapshot a caller carries, apart from the files, and the files it carries. */
  ghost predicate CarriesCapture(caller: Caller, h: History) {
    match caller
    case Captured(cp, _, _, _, snapshot) => cp in h.captured && snapshot == h.captured[cp]
    case Filed(cp, record) => KeepsCapture(cp, record, h)
    case Won(cp, record) => KeepsCapture(cp, record, h)
    case FilesBack(cp, record) => KeepsCapture(cp, record, h)
    case _ => true
  }

  ghost predicate KeepsCapture(cp: string, record: Checkpoint, h: History) {
    && cp in h.captured && record.snapshot.(persistedFiles := []) == h.captured[cp]
    && cp in h.filesSeen && FilesOf(record.snapshot.persistedFiles) == h.filesSeen[cp]
  }

  /** A caller that only has the name of a checkpoint has captured nothing for it. */
  ghost predicate NamedIsFresh(caller: Caller, h: History) {
    && (caller.Named? ==> caller.cp !in h.captured && caller.cp !in h.filesSeen)
    && (caller.Captured? ==> caller.cp !in h.filesSeen)
  }

  ghost predicate CapturesKept(s: Sys) {
    && (forall c :: c in s.callers ==> CarriesCapture(s.callers[c], s.hist) && NamedIsFresh(s.callers[c], s.hist))
    && (forall e :: e in s.rt.checkpoints ==> KeepsCapture(e.path, e.value, s.hist))
    && CheckpointsBelow(s.hist.captured.Keys + s.hist.filesSeen.Keys, s.rt.nextCheckpointId)
    && (forall cp :: cp in s.hist.captured ==> s.hist.captured[cp].persistedFiles == [])
  }

  lemma {:induction false} CaptureKeepsCaptures(s: Sys, c: nat, deviceList: seq<string>, timeout: nat)
    requires OnePlace(s) && CapturesKept(s) && At(s, c).Named?
    ensures CapturesKept(StepCapture(s, c, At(s, c), deviceList, timeout))
  {
    var s' := StepCapture(s, c, At(s, c), deviceList, timeout);
    var cp := At(s, c).cp;
    assert c in s.callers && Owns(s.callers[c]) == Some(cp) && OwnedElsewhere(s, cp);
    forall d | d in s.callers && d != c
      ensures CarriesCapture(s'.callers[d], s'.hist) && NamedIsFresh(s'.callers[d], s'.hist)
    {
      assert Owns(s.callers[d]) != Some(cp);
      assert CarriesCapture(s.callers[d], s.hist) && NamedIsFresh(s.callers[d], s.hist);
    }
    forall e | e in s.rt.checkpoints ensures KeepsCapture(e.path, e.value, s'.hist) {
      assert KeepsCapture(e.path, e.value, s.hist) && e.path != cp;
    }
    assert NamedIsFresh(s.callers[c], s.hist);
  }

  lemma {:induction false} CaptureFilesKeepsCaptures(s: Sys, c: nat, listing: Files)
    requires OnePlace(s) && CapturesKept(s) && At(s, c).Captured? && FilesOf(listing) == s.files
    ensures CapturesKept(StepCaptureFiles(s, c, At(s, c), listing))
  {
    var s' := StepCaptureFiles(s, c, At(s, c), listing);
    var cp := At(s, c).cp;
    assert c in s.callers && Owns(s.callers[c]) == Some(cp) && OwnedElsewhere(s, cp);
    assert CarriesCapture(s.callers[c], s.hist);
    assert At(s, c).snapshot.(persistedFiles := listing).(persistedFiles := []) == s.hist.captured[cp];
    assert KeepsCapture(cp, s'.callers[c].record, s'.hist);
    forall d | d in s.callers && d != c
      ensures CarriesCapture(s'.callers[d], s'.hist) && NamedIsFresh(s'.callers[d], s'.hist)
    {
      assert Owns(s.callers[d]) != Some(cp);
      assert CarriesCapture(s.callers[d], s.hist) && NamedIsFresh(s.callers[d], s.hist);
    }
    forall e | e in s.rt.checkpoints ensures KeepsCapture(e.path, e.value, s'.hist) {
      assert KeepsCapture(e.path, e.value, s.hist) && e.path != cp;
    }
  }

  lemma {:induction false} NameKeepsCaptures(s: Sys, c: nat)
    requires CapturesKept(s) && At(s, c) == Idle
    ensures CapturesKept(Step(s, NameCheckpoint(c)))
  {
    var s' := Step(s, NameCheckpoint(c));
    assert CheckpointPath(s.rt.nextCheckpointId) !in s.hist.captured.Keys + s.hist.filesSeen.Keys;
    forall d | d in s'.callers ensures CarriesCapture(s'.callers[d], s'.hist) && NamedIsFresh(s'.callers[d], s'.hist) {
      assert d != c ==> CarriesCapture(s.callers[d], s.hist) && NamedIsFresh(s.callers[d], s.hist);
    }
  }

  /** The other actions change no capture and hand records on unchanged. */
  lemma {:induction false} HandOnKeepsCaptures(s: Sys, s': Sys)
    requires CapturesKept(s)
    requires s'.hist.captured == s.hist.captured && s'.hist.filesSeen == s.hist.filesSeen
    requires s'.rt.nextCheckpointId == s.rt.nextCheckpointId
    requires forall c :: c in s'.callers ==>
               CarriesCapture(s'.callers[c], s.hist) && NamedIsFresh(s'.callers[c], s.hist)
    requires forall e :: e in s'.rt.checkpoints ==> KeepsCapture(e.path, e.value, s.hist)
    ensures CapturesKept(s')
  {
    forall c | c in s'.callers ensures CarriesCapture(s'.callers[c], s'.hist) && NamedIsFresh(s'.callers[c], s'.hist) {
      assert CarriesCapture(s'.callers[c], s.hist) && NamedIsFresh(s'.callers[c], s.hist);
    }
    forall e | e in s'.rt.checkpoints ensures KeepsCapture(e.path, e.value, s'.hist) {
      assert KeepsCapture(e.path, e.value, s.hist);
    }
  }

  lemma {:induction false} StoreKeepsCaptures(s: Sys, c: nat)
    requires CapturesKept(s) && At(s, c).Filed?
    ensures CapturesKept(StepStore(s, c, At(s, c).cp, At(s, c).record))
  {
    var s' := StepStore(s, c, At(s, c).cp, At(s, c).record);
    assert CarriesCapture(s.callers[c], s.hist);
    forall d | d in s'.callers ensures CarriesCapture(s'.callers[d], s.hist) && NamedIsFresh(s'.callers[d], s.hist) {
      if d in s.callers {
        assert CarriesCapture(s.callers[d], s.hist) && NamedIsFresh(s.callers[d], s.hist);
      }
    }
    HandOnKeepsCaptures(s, s');
  }

  lemma {:induction false} WinKeepsCaptures(s: Sys, c: nat, cp: string)
    requires CapturesKept(s)
    ensures CapturesKept(StepWin(s, c, cp)) && CapturesKept(StepDestroy(s, cp))
  {
    hide KeepsCapture, Without, FilesOf;
    var s' := StepWin(s, c, cp);
    forall d | d in s'.callers ensures CarriesCapture(s'.callers[d], s.hist) && NamedIsFresh(s'.callers[d], s.hist) {
      if d in s.callers {
        assert CarriesCapture(s.callers[d], s.hist) && NamedIsFresh(s.callers[d], s.hist);
      }
    }
    WithoutMembers(s.rt.checkpoints, cp);
    HandOnKeepsCaptures(s, s');
    HandOnKeepsCaptures(s, StepDestroy(s, cp));
  }

  lemma {:induction false} AdjustKeepsCaptures(s: Sys, cp: string, addTimeout: nat)
    requires CapturesKept(s)
    ensures CapturesKept(Step(s, Adjust(cp, addTimeout)))
  {
    var t := AfterAdjust(s.rt.checkpoints, cp, s.now, addTimeout);
    forall e | e in t ensures KeepsCapture(e.path, e.value, s.hist) {
      var k :| 0 <= k < |t| && t[k] == e;
      assert s.rt.checkpoints[k] in s.rt.checkpoints;
    }
    HandOnKeepsCaptures(s, Step(s, Adjust(cp, addTimeout)));
  }

  /** What these actions make of the caller that takes them; nothing else that captures rest on changes. */
  lemma {:induction false} CallerMoves(s: Sys, a: Action)
    requires a.NextPath? || a.Insert? || a.Tick? || a.Start? || a.RestoreFiles? || a.RestoreState? || a.GiveUp?
    ensures var s' := Step(s, a);
            && s'.rt.checkpoints == s.rt.checkpoints && s'.rt.nextCheckpointId == s.rt.nextCheckpointId
            && s'.hist.captured == s.hist.captured && s'.hist.filesSeen == s.hist.filesSeen
            && (s'.callers == s.callers || s'.callers == s.callers[a.c := At(s', a.c)])
            && (At(s', a.c) == At(s, a.c) || At(s', a.c).Idle? || At(s', a.c).Allocated? || IsTimer(At(s', a.c))
                || (At(s, a.c).Won? && At(s', a.c) == FilesBack(At(s, a.c).cp, At(s, a.c).record)))
  {
    hide StepPassive, FilesOf, SettingsPath, Lookup, RollbackTimeout;
  }

  lemma {:induction false} MoveKeepsCaptures(s: Sys, s': Sys, c: nat)
    requires CapturesKept(s)
    requires s'.rt.checkpoints == s.rt.checkpoints && s'.rt.nextCheckpointId == s.rt.nextCheckpointId
    requires s'.hist.captured == s.hist.captured && s'.hist.filesSeen == s.hist.filesSeen
    requires s'.callers == s.callers || s'.callers == s.callers[c := At(s', c)]
    requires At(s', c) == At(s, c) || At(s', c).Idle? || At(s', c).Allocated? || IsTimer(At(s', c))
             || (At(s, c).Won? && At(s', c) == FilesBack(At(s, c).cp, At(s, c).record))
    ensures CapturesKept(s')
  {
    hide KeepsCapture;
    forall d | d in s'.callers ensures CarriesCapture(s'.callers[d], s.hist) && NamedIsFresh(s'.callers[d], s.hist) {
      if d in s.callers {
        assert CarriesCapture(s.callers[d], s.hist) && NamedIsFresh(s.callers[d], s.hist);
      }
    }
    HandOnKeepsCaptures(s, s');
  }

  lemma {:induction false} CallerStepKeepsCaptures(s: Sys, a: Action)
    requires CapturesKept(s)
    requires a.NextPath? || a.Insert? || a.Tick? || a.Start? || a.RestoreFiles? || a.RestoreState? || a.GiveUp?
    ensures CapturesKept(Step(s, a))
  {
    hide CapturesKept, Step;
    CallerMoves(s, a);
    MoveKeepsCaptures(s, Step(s, a), a.c);
  }

  /** The remaining actions touch neither callers nor checkpoints. */
  lemma {:induction false} RestKeepsCaptures(s: Sys, s': Sys)
    requires CapturesKept(s)
    requires s'.hist == s.hist && s'.callers == s.callers
    requires s'.rt.checkpoints == s.rt.checkpoints && s'.rt.nextCheckpointId == s.rt.nextCheckpointId
    ensures CapturesKept(s')
  {
    HandOnKeepsCaptures(s, s');
  }

  lemma {:induction false} StepKeepsCaptures(s: Sys, a: Action)
    requires OnePlace(s) && CapturesKept(s)
    ensures CapturesKept(Step(s, a))
  {
    hide CapturesKept, OnePlace, Step;
    if Step(s, a) != s {
      StepTaken(s, a);
      match a
      case NameCheckpoint(c) => NameKeepsCaptures(s, c);
      case Capture(c, deviceList, timeout) => CaptureKeepsCaptures(s, c, deviceList, timeout);
      case CaptureFiles(c, listing) => CaptureFilesKeepsCaptures(s, c, listing);
      case Store(c) => StoreKeepsCaptures(s, c);
      case Win(c, cp) => WinKeepsCaptures(s, c, cp);
      case Destroy(cp) => WinKeepsCaptures(s, 0, cp);
      case Adjust(cp, addTimeout) => AdjustKeepsCaptures(s, cp, addTimeout);
      case NextPath(_) => CallerStepKeepsCaptures(s, a);
      case Insert(_, _) => CallerStepKeepsCaptures(s, a);
      case Tick(_) => CallerStepKeepsCaptures(s, a);
      case Start(_) => CallerStepKeepsCaptures(s, a);
      case RestoreFiles(_) => CallerStepKeepsCaptures(s, a);
      case RestoreState(_) => CallerStepKeepsCaptures(s, a);
      case GiveUp(_) => CallerStepKeepsCaptures(s, a);
      case _ => PassiveStep(s, a); RestKeepsCaptures(s, Step(s, a));
    }
  }

  lemma {:induction false} OtherStepsKeepHistory(s: Sys, a: Action)
    requires !a.Capture? && !a.CaptureFiles?
    ensures Step(s, a).hist.captured == s.hist.captured && Step(s, a).hist.filesSeen == s.hist.filesSeen
  {
    if IsPassive(a) {
      PassiveStep(s, a);
      hide Step;
    } else {
      hide StepPassive, Without, Lookup, AfterAdjust, FilesOf, SettingsPath, CheckpointPath, RollbackTimeout;
    }
  }

  /** Once a checkpoint has its capture, no action changes it. */
  lemma {:induction false} StepKeepsHistory(s: Sys, a: Action, cp: string)
    requires CapturesKept(s)
    ensures cp in s.hist.captured ==>
              cp in Step(s, a).hist.captured && Step(s, a).hist.captured[cp] == s.hist.captured[cp]
    ensures cp in s.hist.filesSeen ==>
              cp in Step(s, a).hist.filesSeen && Step(s, a).hist.filesSeen[cp] == s.hist.filesSeen[cp]
  {
    if a.Capture? || a.CaptureFiles? {
      assert a.c in s.callers ==> NamedIsFresh(s.callers[a.c], s.hist);
    } else {
      OtherStepsKeepHistory(s, a);
    }
  }

  lemma {:induction false} RunKeepsCaptures(s: Sys, actions: seq<Action>, cp: string)
    requires OnePlace(s) && CapturesKept(s)
    ensures OnePlace(Run(s, actions)) && CapturesKept(Run(s, actions))
    ensures cp in s.hist.captured ==>
              cp in Run(s, actions).hist.captured && Run(s, actions).hist.captured[cp] == s.hist.captured[cp]
    ensures cp in s.hist.filesSeen ==>
              cp in Run(s, actions).hist.filesSeen && Run(s, actions).hist.filesSeen[cp] == s.hist.filesSeen[cp]
  {
    if actions != [] {
      var before := Run(s, actions[..|actions| - 1]);
      RunKeepsCaptures(s, actions[..|actions| - 1], cp);
      StepKeepsOnePlace(before, actions[|actions| - 1]);
      StepKeepsCaptures(before, actions[|actions| - 1]);
      StepKeepsHistory(before, actions[|actions| - 1], cp);
    }
  }

  lemma {:induction false} InitialCapturesKept(s: Sys)
    requires Initial(s)
    ensures CapturesKept(s)
  {
  }

  lemma {:induction false} RestoreSteps(s: Sys, d: nat)
    ensures At(s, d).FilesBack? ==> Step(s, RestoreState(d)).rt == AfterRestore(s.rt, At(s, d).record.snapshot)
    ensures At(s, d).Won? ==> Step(s, RestoreFiles(d)).files == FilesOf(At(s, d).record.snapshot.persistedFiles)
  {
    hide FilesOf, AfterRestore;
  }

  lemma {:induction false} RestoreIgnoresFiles(s: State, snapshot: Snapshot)
    ensures AfterRestore(s, snapshot) == AfterRestore(s, snapshot.(persistedFiles := []))
  {
  }

  /** A caller about to restore carries exactly what was captured for its checkpoint. */
  lemma {:induction false} RestoreIsCapture(s: Sys, d: nat)
    requires CapturesKept(s)
    ensures At(s, d).FilesBack? ==>
              && At(s, d).cp in s.hist.captured
              && Step(s, RestoreState(d)).rt == AfterRestore(s.rt, s.hist.captured[At(s, d).cp])
    ensures At(s, d).Won? ==>
              && At(s, d).cp in s.hist.filesSeen
              && Step(s, RestoreFiles(d)).files == s.hist.filesSeen[At(s, d).cp]
  {
    assert d in s.callers ==> CarriesCapture(s.callers[d], s.hist);
    RestoreSteps(s, d);
    hide CapturesKept, FilesOf, Step, AfterRestore;
    if At(s, d).FilesBack? {
      RestoreIgnoresFiles(s.rt, At(s, d).record.snapshot);
      assert At(s, d).record.snapshot.(persistedFiles := []) == s.hist.captured[At(s, d).cp];
    }
  }

  lemma {:induction false} CaptureNotes(s: Sys, c: nat, deviceList: seq<string>, timeout: nat)
    requires At(s, c).Named?
    ensures var h := Step(s, Capture(c, deviceList, timeout)).hist;
            At(s, c).cp in h.captured && h.captured[At(s, c).cp] == Slice(s.rt, deviceList)
  {
    assert Step(s, Capture(c, deviceList, timeout)) == StepCapture(s, c, At(s, c), deviceList, timeout);
  }

  /** Whatever happens between the capture of a checkpoint and the restore of the same
      checkpoint, the restore brings back exactly the slice of the state at the capture. */
  lemma {:induction false} RollbackReturnsToCapture(s: Sys, before: seq<Action>, c: nat, deviceList: seq<string>,
                                                    timeout: nat,
                                  between: seq<Action>, d: nat)
    requires Initial(s)
    requires At(Run(s, before), c).Named?
    requires var reached := Run(Step(Run(s, before), Capture(c, deviceList, timeout)), between);
             At(reached, d).FilesBack? && At(reached, d).cp == At(Run(s, before), c).cp
    ensures var reached := Run(Step(Run(s, before), Capture(c, deviceList, timeout)), between);
            Step(reached, RestoreState(d)).rt == AfterRestore(reached.rt, Slice(Run(s, before).rt, deviceList))
  {
    var at, a := Run(s, before), Capture(c, deviceList, timeout);
    var cp := At(at, c).cp;
    InitialOnePlace(s);
    InitialCapturesKept(s);
    RunKeepsCaptures(s, before, cp);
    var captured := Step(at, a);
    StepKeepsOnePlace(at, a);
    StepKeepsCaptures(at, a);
    CaptureNotes(at, c, deviceList, timeout);
    RunKeepsCaptures(captured, between, cp);
    RestoreIsCapture(Run(captured, between), d);
  }

  lemma {:induction false} CaptureFilesNotes(s: Sys, c: nat, listing: Files)
    requires At(s, c).Captured? && FilesOf(listing) == s.files
    ensures var h := Step(s, CaptureFiles(c, listing)).hist;
            At(s, c).cp in h.filesSeen && h.filesSeen[At(s, c).cp] == s.files
  {
    assert Step(s, CaptureFiles(c, listing)) == StepCaptureFiles(s, c, At(s, c), listing);
  }

  /** And putting the files back leaves the profile directories exactly as they were when
      the checkpoint read them. */
  lemma {:induction false} RollbackReturnsFiles(s: Sys, before: seq<Action>, c: nat, listing: Files,
                                                between: seq<Action>, d: nat)
    requires Initial(s)
    requires At(Run(s, before), c).Captured? && FilesOf(listing) == Run(s, before).files
    requires var reached := Run(Step(Run(s, before), CaptureFiles(c, listing)), between);
             At(reached, d).Won? && At(reached, d).cp == At(Run(s, before), c).cp
    ensures var reached := Run(Step(Run(s, before), CaptureFiles(c, listing)), between);
            Step(reached, RestoreFiles(d)).files == Run(s, before).files
  {
    var at, a := Run(s, before), CaptureFiles(c, listing);
    var cp := At(at, c).cp;
    InitialOnePlace(s);
    InitialCapturesKept(s);
    RunKeepsCaptures(s, before, cp);
    var filed := Step(at, a);
    StepKeepsOnePlace(at, a);
    StepKeepsCaptures(at, a);
    CaptureFilesNotes(at, c, listing);
    RunKeepsCaptures(filed, between, cp);
    RestoreIsCapture(Run(filed, between), d);
  }
}
