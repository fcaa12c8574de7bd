/** What one action of the state machine does, action by action, for the invariants to build on. */
module SystemSteps {
  import opened Tables
  import opened RuntimeState
  import opened System

  /** A timer: to be started, asleep, or about to roll back. */
  predicate IsTimer(caller: Caller) {
    caller.Starting? || caller.Watching? || caller.Fired?
  }

  /** No caller but this one differs between the two states. */
  ghost predicate OnlyMoves(s: Sys, s': Sys, c: nat) {
    forall d :: d != c ==> (d in s'.callers <==> d in s.callers) && (d in s.callers ==> s'.callers[d] == s.callers[d])
  }

  /** These touch neither callers nor checkpoints. */
  predicate IsPassive(a: Action) {
    a.Update? || a.Remove? || a.SetHost? || a.SetManaged? || a.SetNetworking? || a.SetAsleep? || a.PushActive?
    || a.DropActive? || a.EditTables? || a.WriteFile? || a.DeleteFile? || a.Pass?
  }

  lemma {:induction false} PassiveStep(s: Sys, a: Action)
    requires IsPassive(a)
    ensures var s' := Step(s, a);
            && s'.callers == s.callers && s'.hist == s.hist
            && s'.rt.checkpoints == s.rt.checkpoints && s'.rt.nextCheckpointId == s.rt.nextCheckpointId
  {
    hide Repush, Without, Upsert, Lookup;
  }

  /** An action that changes something was possible, and these take the step they stand for. */
  lemma {:induction false} StepTaken(s: Sys, a: Action)
    requires Step(s, a) != s
    ensures a.NextPath? || a.NameCheckpoint? ==> At(s, a.c) == Idle
    ensures a.Insert? ==> At(s, a.c).Allocated?
    ensures a.Capture? ==> At(s, a.c).Named? && Step(s, a) == StepCapture(s, a.c, At(s, a.c), a.deviceList, a.timeout)
    ensures a.CaptureFiles? ==> At(s, a.c).Captured? && FilesOf(a.listing) == s.files
    ensures a.CaptureFiles? ==> Step(s, a) == StepCaptureFiles(s, a.c, At(s, a.c), a.listing)
    ensures a.Store? ==> At(s, a.c).Filed? && Step(s, a) == StepStore(s, a.c, At(s, a.c).cp, At(s, a.c).record)
    ensures a.Start? ==> At(s, a.c).Starting?
    ensures a.Destroy? ==> Step(s, a) == StepDestroy(s, a.cp)
    ensures a.Win? ==> MayWin(At(s, a.c), a.cp) && Step(s, a) == StepWin(s, a.c, a.cp)
    ensures a.RestoreFiles? ==> At(s, a.c).Won?
    ensures a.RestoreState? ==> At(s, a.c).FilesBack?
  {
    hide FilesOf, StepCapture, StepCaptureFiles, StepStore, StepWin, StepDestroy, StepTick, MayWin;
  }
}
