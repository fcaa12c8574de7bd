/** From the beginning of a checkpoint to its timer: the deadline is the one asked for, and no timer is early. */
module SystemDeadlines {
  import opened Text
  import opened ObjectPaths
  import opened Tables
  import opened RuntimeState
  import opened RuntimeStore
  import opened System
  import opened SystemSteps
  import opened SystemCheckpoints
  import opened SystemTimers
  import opened SystemTime

  // --------------------------------------------------------- named, not captured yet

  lemma {:induction false} NextOnlyGrows(s: Sys, a: Action)
    ensures Step(s, a).rt.nextCheckpointId >= s.rt.nextCheckpointId
  {
    if IsPassive(a) {
      PassiveStep(s, a);
      hide Step;
    } else {
      hide StepPassive, Without, Lookup, AfterAdjust, FilesOf, SettingsPath, CheckpointPath, Slice, RollbackTimeout;
    }
  }

  lemma {:induction false} BelowStays(s: Sys, a: Action, cp: string)
    requires CheckpointsBelow({cp}, s.rt.nextCheckpointId)
    ensures CheckpointsBelow({cp}, Step(s, a).rt.nextCheckpointId)
  {
    NextOnlyGrows(s, a);
    hide Step, CheckpointPath;
  }

  /** Nobody but its creator has just named a checkpoint. */
  lemma {:induction false} NamedAfter(s: Sys, a: Action, d: nat)
    requires At(Step(s, a), d).Named?
    ensures At(Step(s, a), d) == At(s, d)
            || (a == NameCheckpoint(d) && At(Step(s, a), d).cp == CheckpointPath(s.rt.nextCheckpointId))
  {
    if Mover(a) == Some(d) {
      hide StepPassive, FilesOf, SettingsPath, CheckpointPath, Lookup, RollbackTimeout, Slice, Without;
    } else {
      CallerAfter(s, a, d);
      hide Step;
    }
  }

  /** Whoever still has only the path of this checkpoint begun it at this time. */
  ghost predicate BegunAt(s: Sys, cp: string, time: int) {
    && CheckpointsBelow({cp}, s.rt.nextCheckpointId)
    && forall d: nat :: At(s, d).Named? && At(s, d).cp == cp ==> At(s, d).created == time
  }

  lemma {:induction false} StepKeepsBegunAt(s: Sys, a: Action, cp: string, time: int)
    requires BegunAt(s, cp, time)
    ensures BegunAt(Step(s, a), cp, time)
  {
    BelowStays(s, a, cp);
    hide Step;
    forall d: nat | At(Step(s, a), d).Named? && At(Step(s, a), d).cp == cp ensures At(Step(s, a), d).created == time {
      NamedAfter(s, a, d);
      assert CheckpointPath(s.rt.nextCheckpointId) !in {cp};
    }
    hide CheckpointsBelow;
  }

  lemma {:induction false} RunKeepsBegunAt(s: Sys, actions: seq<Action>, cp: string, time: int)
    requires BegunAt(s, cp, time)
    ensures BegunAt(Run(s, actions), cp, time)
  {
    hide Step, BegunAt;
    if actions != [] {
      RunKeepsBegunAt(s, actions[..|actions| - 1], cp, time);
      StepKeepsBegunAt(Run(s, actions[..|actions| - 1]), actions[|actions| - 1], cp, time);
    }
  }

  /** The path that is given out belongs to nobody yet. */
  lemma {:induction false} NamingBegins(r: Sys, c: nat)
    requires OnePlace(r) && At(r, c) == Idle
    ensures var cp := CheckpointPath(r.rt.nextCheckpointId);
            BegunAt(Step(r, NameCheckpoint(c)), cp, r.now)
  {
    var cp, named := CheckpointPath(r.rt.nextCheckpointId), Step(r, NameCheckpoint(c));
    forall id: nat | id >= named.rt.nextCheckpointId ensures CheckpointPath(id) !in {cp} {
      if CheckpointPath(id) == cp {
        CheckpointPathInjective(id, r.rt.nextCheckpointId);
      }
    }
    forall d: nat | At(named, d).Named? && At(named, d).cp == cp ensures At(named, d).created == r.now {
      assert d in r.callers ==> Owns(r.callers[d]) != Some(cp);
    }
  }

  // ------------------------------------------------------------ captured and stored

  /** One checkpoint and what its client asked for. */
  datatype Asked = Asked(cp: string, begun: int, devices: seq<string>, timeout: nat)

  predicate AsAsked(record: Checkpoint, k: Asked) {
    && record.created == k.begun && record.devices == k.devices && record.rollbackTimeout == k.timeout
    && record.deadline == DeadlineFor(k.begun, k.timeout)
  }

  /** The whole timeout has gone by, in milliseconds, or the clock has no larger value. */
  predicate HasElapsed(k: Asked, now: int) {
    k.begun + 1000 * k.timeout <= now || I64_MAX <= now
  }

  predicate OnTrack(caller: Caller, k: Asked, now: int) {
    match caller
    case Named(cp, _) => cp != k.cp
    case Captured(cp, created, devices, timeout, _) =>
      cp == k.cp ==> created == k.begun && devices == k.devices && timeout == k.timeout
    case Filed(cp, record) => cp == k.cp ==> AsAsked(record, k)
    case Fired(cp) => cp == k.cp ==> HasElapsed(k, now)
    case _ => true
  }

  ghost predicate StoredAsAsked(t: Table<Checkpoint>, k: Asked) {
    forall e :: e in t && e.path == k.cp ==> AsAsked(e.value, k)
  }

  ghost predicate Tracked(s: Sys, k: Asked) {
    && CheckpointsBelow({k.cp}, s.rt.nextCheckpointId) && k.begun <= s.now
    && StoredAsAsked(s.rt.checkpoints, k)
    && forall d: nat :: OnTrack(At(s, d), k, s.now)
  }

  lemma {:induction false} TickOnTrack(s: Sys, d: nat, k: Asked)
    requires StoredAsAsked(s.rt.checkpoints, k) && k.begun <= s.now && At(s, d).Watching?
    ensures OnTrack(At(StepTick(s, d, At(s, d).cp), d), k, s.now)
  {
    var found := Lookup(s.rt.checkpoints, At(s, d).cp);
    if found.Some? && At(s, d).cp == k.cp && k.timeout > 0 {
      TimeoutZeroWhenPassed(found.value.value, s.now);
    }
  }

  lemma {:induction false} FilingOnTrack(s: Sys, d: nat, listing: Files, k: Asked)
    requires At(s, d).Captured? && OnTrack(At(s, d), k, s.now)
    ensures OnTrack(At(StepCaptureFiles(s, d, At(s, d), listing), d), k, s.now)
  {
  }

  /** What the other actions of a caller make of it, as far as its checkpoint goes. */
  lemma {:induction false} MoverBecomes(s: Sys, a: Action, d: nat)
    requires Mover(a) == Some(d) && !a.Tick? && !a.CaptureFiles?
    ensures var before, after := At(s, d), At(Step(s, a), d);
            || after == before
            || (!IsUnstored(after) && !after.Fired?)
            || (after.Named? && after.cp == CheckpointPath(s.rt.nextCheckpointId))
            || (after.Captured? && before.Named? && after.cp == before.cp)
  {
    hide StepPassive, FilesOf, SettingsPath, Slice, Without, Lookup, RollbackTimeout, CheckpointPath, AfterRestore;
    hide NewCheckpoint;
  }

  lemma {:induction false} MoverOnTrack(s: Sys, a: Action, d: nat, k: Asked)
    requires Tracked(s, k) && Mover(a) == Some(d)
    ensures OnTrack(At(Step(s, a), d), k, s.now)
  {
    assert OnTrack(At(s, d), k, s.now) && CheckpointPath(s.rt.nextCheckpointId) != k.cp;
    assert k.begun <= s.now && StoredAsAsked(s.rt.checkpoints, k);
    hide Tracked, StoredAsAsked, AsAsked, HasElapsed, CheckpointPath;
    if a.Tick? {
      hide StepTick;
      if At(s, d).Watching? {
        TickOnTrack(s, d, k);
      }
    } else if a.CaptureFiles? {
      hide StepCaptureFiles, FilesOf;
      if At(s, d).Captured? {
        FilingOnTrack(s, d, a.listing, k);
      }
    } else {
      MoverBecomes(s, a, d);
      hide Step;
    }
  }

  lemma {:induction false} AdjustKeepsOthers(t: Table<Checkpoint>, other: string, now: int, addTimeout: nat, k: Asked)
    requires StoredAsAsked(t, k) && other != k.cp
    ensures StoredAsAsked(AfterAdjust(t, other, now, addTimeout), k)
  {
    var t' := AfterAdjust(t, other, now, addTimeout);
    hide AsAsked, Adjusted;
    forall e | e in t' && e.path == k.cp ensures AsAsked(e.value, k) {
      var i :| 0 <= i < |t'| && t'[i] == e;
      assert t[i] in t;
    }
  }

  lemma {:induction false} TableOnTrack(s: Sys, a: Action, k: Asked)
    requires Tracked(s, k) && !AdjustsIt(a, k.cp)
    ensures StoredAsAsked(Step(s, a).rt.checkpoints, k)
  {
    var t := s.rt.checkpoints;
    StepTable(s, a);
    hide Step, Without, AfterAdjust, AsAsked, HasElapsed;
    match a {
      case Win(_, gone) => WithoutMembers(t, gone);
      case Destroy(gone) => WithoutMembers(t, gone);
      case Adjust(other, addTimeout) => AdjustKeepsOthers(t, other, s.now, addTimeout, k);
      case Store(c) => assert OnTrack(At(s, c), k, s.now);
      case _ =>
    }
  }

  lemma {:induction false} StepKeepsTracked(s: Sys, a: Action, k: Asked)
    requires Tracked(s, k) && !AdjustsIt(a, k.cp)
    ensures Tracked(Step(s, a), k)
  {
    BelowStays(s, a, k.cp);
    StepClock(s, a);
    TableOnTrack(s, a, k);
    forall d: nat ensures OnTrack(At(Step(s, a), d), k, Step(s, a).now) {
      assert OnTrack(At(s, d), k, s.now);
      if Mover(a) == Some(d) {
        MoverOnTrack(s, a, d, k);
      } else {
        CallerAfter(s, a, d);
      }
      hide Step, AsAsked;
    }
    hide Step, OnTrack, StoredAsAsked, CheckpointsBelow;
  }

  lemma {:induction false} RunKeepsTracked(s: Sys, actions: seq<Action>, k: Asked)
    requires Tracked(s, k) && forall a :: a in actions ==> !AdjustsIt(a, k.cp)
    ensures Tracked(Run(s, actions), k)
  {
    hide Step, Tracked, AdjustsIt;
    if actions != [] {
      var front, last := actions[..|actions| - 1], actions[|actions| - 1];
      assert actions == front + [last];
      RunKeepsTracked(s, front, k);
      StepKeepsTracked(Run(s, front), last, k);
    }
  }

  /** At its capture a checkpoint is nowhere but with its creator. */
  lemma {:induction false} CaptureTracks(m: Sys, c: nat, devices: seq<string>, timeout: nat)
    requires OnePlace(m) && TimersInv(m) && ClocksOk(m) && At(m, c).Named?
    requires CheckpointsBelow({At(m, c).cp}, m.rt.nextCheckpointId)
    ensures Tracked(Step(m, Capture(c, devices, timeout)), Asked(At(m, c).cp, At(m, c).created, devices, timeout))
  {
    var cp, k := At(m, c).cp, Asked(At(m, c).cp, At(m, c).created, devices, timeout);
    var made := Step(m, Capture(c, devices, timeout));
    assert made == StepCapture(m, c, At(m, c), devices, timeout);
    assert ClockOk(At(m, c), m.now);
    assert Owns(m.callers[c]) == Some(cp) && OwnedElsewhere(m, cp) && IsUnstored(m.callers[c]);
    hide StepCapture, Step, ClocksOk, Slice;
    forall d: nat ensures OnTrack(At(made, d), k, made.now) {
      if d != c && d in m.callers {
        assert Owns(m.callers[d]) != Some(cp);
        assert IsTimer(m.callers[d]) ==> m.callers[d].cp != cp;
      }
    }
  }

  // ------------------------------------------------------------------- the theorems

  lemma {:induction false} TrackedSinceNaming(s: Sys, before: seq<Action>, c: nat, waiting: seq<Action>,
                                              devices: seq<string>, timeout: nat, between: seq<Action>)
    requires Initial(s) && At(Run(s, before), c) == Idle
    requires var r := Run(s, before);
             var cp := CheckpointPath(r.rt.nextCheckpointId);
             var m := Run(Step(r, NameCheckpoint(c)), waiting);
             && At(m, c).Named? && At(m, c).cp == cp
             && forall a :: a in between ==> !AdjustsIt(a, cp)
    ensures var r := Run(s, before);
            var m := Run(Step(r, NameCheckpoint(c)), waiting);
            Tracked(Run(Step(m, Capture(c, devices, timeout)), between),
                    Asked(CheckpointPath(r.rt.nextCheckpointId), r.now, devices, timeout))
  {
    var r := Run(s, before);
    var cp := CheckpointPath(r.rt.nextCheckpointId);
    var named := Step(r, NameCheckpoint(c));
    var m := Run(named, waiting);
    ReachedTimers(s, before);
    NamingBegins(r, c);
    RunKeepsBegunAt(named, waiting, cp, r.now);
    hide Initial, OnePlace, TimersInv, ClocksOk, Step, Run, Tracked, CheckpointPath, AdjustsIt, CheckpointsBelow;
    RunFromNaming(s, before, c, waiting);
    CaptureTracks(m, c, devices, timeout);
    RunKeepsTracked(Step(m, Capture(c, devices, timeout)), between, Asked(cp, r.now, devices, timeout));
  }

  lemma {:induction false} RunFromNaming(s: Sys, before: seq<Action>, c: nat, waiting: seq<Action>)
    requires Initial(s)
    ensures var m := Run(Step(Run(s, before), NameCheckpoint(c)), waiting);
            OnePlace(m) && TimersInv(m) && ClocksOk(m)
  {
    var all := before + [NameCheckpoint(c)] + waiting;
    assert (before + [NameCheckpoint(c)])[..|before|] == before;
    RunAppend(s, before + [NameCheckpoint(c)], waiting);
    assert Run(s, before + [NameCheckpoint(c)]) == Step(Run(s, before), NameCheckpoint(c));
    hide Initial, Run, Step;
    ReachedTimers(s, all);
    ReachedClocks(s, all);
  }

  /** A timer is never early. A client begins a checkpoint and captures the state with a timeout; whatever
      happens before and after, unless somebody adjusts the checkpoint, its timer has fired only if at least
      that many seconds, in milliseconds, have gone by since the beginning, or the clock stands at its limit. */
  lemma {:induction false} TimerIsNotEarly(s: Sys, before: seq<Action>, c: nat, waiting: seq<Action>,
                                           devices: seq<string>, timeout: nat, between: seq<Action>, w: nat)
    requires Initial(s) && At(Run(s, before), c) == Idle
    requires var r := Run(s, before);
             var cp := CheckpointPath(r.rt.nextCheckpointId);
             var m := Run(Step(r, NameCheckpoint(c)), waiting);
             && At(m, c).Named? && At(m, c).cp == cp
             && (forall a :: a in between ==> !AdjustsIt(a, cp))
             && At(Run(Step(m, Capture(c, devices, timeout)), between), w) == Fired(cp)
    ensures var m := Run(Step(Run(s, before), NameCheckpoint(c)), waiting);
            || Elapsed(waiting) + Elapsed(between) >= 1000 * timeout
            || Run(Step(m, Capture(c, devices, timeout)), between).now >= I64_MAX
  {
    var r := Run(s, before);
    var m := Run(Step(r, NameCheckpoint(c)), waiting);
    var made := Step(m, Capture(c, devices, timeout));
    TrackedSinceNaming(s, before, c, waiting, devices, timeout, between);
    StepClock(r, NameCheckpoint(c));
    ElapsedIsTheClock(Step(r, NameCheckpoint(c)), waiting);
    StepClock(m, Capture(c, devices, timeout));
    ElapsedIsTheClock(made, between);
    hide Initial, Step, Run, Elapsed, CheckpointPath, AdjustsIt, StoredAsAsked;
    assert OnTrack(At(Run(made, between), w), Asked(CheckpointPath(r.rt.nextCheckpointId), r.now, devices, timeout),
                   Run(made, between).now);
  }

  lemma {:induction false} TrackedRecord(r: Sys, k: Asked)
    requires Tracked(r, k)
    ensures Lookup(r.rt.checkpoints, k.cp).Some? ==> AsAsked(Lookup(r.rt.checkpoints, k.cp).value.value, k)
  {
    hide AsAsked;
  }

  /** And whenever the checkpoint is found stored, its record says what was asked for: the time of the
      beginning, the devices, the timeout, and the deadline that many seconds after the beginning, short of
      64 bits. */
  lemma {:induction false} StoredSinceNaming(s: Sys, before: seq<Action>, c: nat, waiting: seq<Action>,
                                             devices: seq<string>, timeout: nat, between: seq<Action>)
    requires Initial(s) && At(Run(s, before), c) == Idle
    requires var r := Run(s, before);
             var cp := CheckpointPath(r.rt.nextCheckpointId);
             var m := Run(Step(r, NameCheckpoint(c)), waiting);
             && At(m, c).Named? && At(m, c).cp == cp
             && forall a :: a in between ==> !AdjustsIt(a, cp)
    ensures var r := Run(s, before);
            var m := Run(Step(r, NameCheckpoint(c)), waiting);
            var found := Lookup(Run(Step(m, Capture(c, devices, timeout)), between).rt.checkpoints,
                                CheckpointPath(r.rt.nextCheckpointId));
            found.Some? ==>
              && found.value.value.created == r.now && found.value.value.devices == devices
              && found.value.value.rollbackTimeout == timeout
              && (timeout == 0 ==> found.value.value.deadline == None)
              && (timeout > 0 ==> found.value.value.deadline == Some(Min(r.now + 1000 * timeout, I64_MAX)))
  {
    var r := Run(s, before);
    var m := Run(Step(r, NameCheckpoint(c)), waiting);
    hide Initial, Step, Run, CheckpointPath, AdjustsIt, Tracked;
    TrackedSinceNaming(s, before, c, waiting, devices, timeout, between);
    TrackedRecord(Run(Step(m, Capture(c, devices, timeout)), between),
                  Asked(CheckpointPath(r.rt.nextCheckpointId), r.now, devices, timeout));
  }
}
