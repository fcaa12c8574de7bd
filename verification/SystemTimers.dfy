/** Timers and deadlines: the invariants of every reachable state. */
module SystemTimers {
  import opened Text
  import opened ObjectPaths
  import opened Tables
  import opened RuntimeState
  import opened RuntimeStore
  import opened System
  import opened SystemSteps
  import opened SystemCheckpoints

  // ------------------------------------------------------------------- the timers

  predicate IsUnstored(caller: Caller) {
    caller.Named? || caller.Captured? || caller.Filed?
  }

  ghost predicate DeadlineOk(cp: Checkpoint) {
    cp.deadline.Some? ==> cp.deadline.value <= I64_MAX
  }

  /** Deadlines stay within 64 bits, and a record about to be stored has one exactly when a timeout
      was asked for. */
  ghost predicate DeadlinesOk(s: Sys) {
    && (forall e :: e in s.rt.checkpoints ==> DeadlineOk(e.value))
    && (forall c :: c in s.callers && s.callers[c].Filed? ==> FiledOk(s.callers[c].record))
  }

  ghost predicate FiledOk(record: Checkpoint) {
    DeadlineOk(record) && (record.deadline.Some? <==> record.rollbackTimeout > 0)
  }

  /** A stored checkpoint with a timer has a deadline. */
  ghost predicate WatchedHaveDeadlines(s: Sys) {
    forall c, e :: c in s.callers && IsTimer(s.callers[c]) && e in s.rt.checkpoints && e.path == s.callers[c].cp
      ==> e.value.deadline.Some?
  }

  /** A checkpoint that is named but not stored yet has no timer. */
  ghost predicate UnstoredUnwatched(s: Sys) {
    forall c, d :: c in s.callers && d in s.callers && IsTimer(s.callers[d]) && IsUnstored(s.callers[c])
      ==> s.callers[c].cp != s.callers[d].cp
  }

  ghost predicate WatchedBelow(s: Sys) {
    forall c :: c in s.callers && IsTimer(s.callers[c]) ==> CheckpointsBelow({s.callers[c].cp}, s.rt.nextCheckpointId)
  }

  ghost predicate TimersInv(s: Sys) {
    DeadlinesOk(s) && WatchedHaveDeadlines(s) && UnstoredUnwatched(s) && WatchedBelow(s)
  }

  lemma {:induction false} InitialTimersInv(s: Sys)
    requires Initial(s)
    ensures TimersInv(s)
  {
  }

  /** A move of one caller that leaves the table alone. */
  lemma {:induction false} MoveKeepsTimers(s: Sys, s': Sys, c: nat)
    requires TimersInv(s)
    requires s'.rt.checkpoints == s.rt.checkpoints && s'.rt.nextCheckpointId == s.rt.nextCheckpointId
    requires c in s'.callers && s'.callers == s.callers[c := s'.callers[c]]
    requires IsTimer(s'.callers[c]) ==> c in s.callers && IsTimer(s.callers[c]) && s'.callers[c].cp == s.callers[c].cp
    requires IsUnstored(s'.callers[c])
         ==> c in s.callers && IsUnstored(s.callers[c]) && s'.callers[c].cp == s.callers[c].cp
    requires s'.callers[c].Filed? ==> FiledOk(s'.callers[c].record)
    ensures TimersInv(s')
  {
    hide DeadlineOk, FiledOk, CheckpointsBelow;
  }

  ghost predicate ComesFrom(t: Table<Checkpoint>, e: Entry<Checkpoint>) {
    exists f :: f in t && f.path == e.path && (f.value.deadline.Some? ==> e.value.deadline.Some?)
  }

  /** A step that keeps, adjusts or removes records, and at most puts a caller to rest. */
  lemma {:induction false} TableKeepsTimers(s: Sys, s': Sys)
    requires TimersInv(s) && s'.rt.nextCheckpointId == s.rt.nextCheckpointId
    requires forall c :: c in s'.callers && (IsTimer(s'.callers[c]) || IsUnstored(s'.callers[c]))
               ==> c in s.callers && s'.callers[c] == s.callers[c]
    requires forall e :: e in s'.rt.checkpoints ==> DeadlineOk(e.value) && ComesFrom(s.rt.checkpoints, e)
    ensures TimersInv(s')
  {
    hide DeadlineOk, FiledOk, CheckpointsBelow;
    forall c, e | c in s'.callers && IsTimer(s'.callers[c]) && e in s'.rt.checkpoints && e.path == s'.callers[c].cp
      ensures e.value.deadline.Some?
    {
      var f :| f in s.rt.checkpoints && f.path == e.path && (f.value.deadline.Some? ==> e.value.deadline.Some?);
    }
  }

  lemma {:induction false} NameKeepsTimers(s: Sys, c: nat)
    requires TimersInv(s) && At(s, c) == Idle
    ensures TimersInv(Step(s, NameCheckpoint(c)))
  {
    hide DeadlineOk, FiledOk;
    var id := s.rt.nextCheckpointId;
    forall d | d in s.callers && IsTimer(s.callers[d]) ensures s.callers[d].cp != CheckpointPath(id) {
      assert CheckpointsBelow({s.callers[d].cp}, id);
    }
    hide CheckpointPath;
  }

  lemma {:induction false} StoreKeepsTimers(s: Sys, c: nat)
    requires OnePlace(s) && TimersInv(s) && At(s, c).Filed?
    ensures TimersInv(StepStore(s, c, At(s, c).cp, At(s, c).record))
  {
    var cp, record := At(s, c).cp, At(s, c).record;
    assert Owns(s.callers[c]) == Some(cp) && OwnedElsewhere(s, cp);
    forall k | k in s.callers && IsUnstored(s.callers[k]) && k != c ensures s.callers[k].cp != cp {
      assert Owns(s.callers[k]) == Some(s.callers[k].cp);
    }
    hide OnePlace, DeadlineOk, CheckpointPath;
    var s' := StepStore(s, c, cp, record);
    forall d, e | d in s'.callers && IsTimer(s'.callers[d]) && e in s'.rt.checkpoints && e.path == s'.callers[d].cp
      ensures e.value.deadline.Some?
    {
      if d in s.callers && IsTimer(s.callers[d]) {
        assert s.callers[d].cp != cp;
        assert e in s.rt.checkpoints;
      }
    }
    forall k, d | k in s'.callers && d in s'.callers && IsTimer(s'.callers[d]) && IsUnstored(s'.callers[k])
      ensures s'.callers[k].cp != s'.callers[d].cp
    {
      assert k != c && s'.callers[k] == s.callers[k];
    }
  }

  lemma {:induction false} AdjustKeepsTimers(s: Sys, cp: string, addTimeout: nat)
    requires TimersInv(s)
    ensures TimersInv(Step(s, Adjust(cp, addTimeout)))
  {
    var t := AfterAdjust(s.rt.checkpoints, cp, s.now, addTimeout);
    forall e | e in t ensures DeadlineOk(e.value) && ComesFrom(s.rt.checkpoints, e) {
      var k :| 0 <= k < |t| && t[k] == e;
      assert s.rt.checkpoints[k] in s.rt.checkpoints;
    }
    hide TimersInv, AfterAdjust, ComesFrom, DeadlineOk;
    TableKeepsTimers(s, Step(s, Adjust(cp, addTimeout)));
  }

  lemma {:induction false} WinKeepsTimers(s: Sys, c: nat, cp: string)
    requires TimersInv(s)
    ensures TimersInv(StepWin(s, c, cp)) && TimersInv(StepDestroy(s, cp))
  {
    WithoutMembers(s.rt.checkpoints, cp);
    forall e | e in s.rt.checkpoints ensures DeadlineOk(e.value) && ComesFrom(s.rt.checkpoints, e) {
    }
    hide TimersInv, ComesFrom, DeadlineOk, Without;
    TableKeepsTimers(s, StepWin(s, c, cp));
    TableKeepsTimers(s, StepDestroy(s, cp));
  }

  lemma {:induction false} TimerMoves(s: Sys, a: Action)
    requires a.NextPath? || a.Insert? || a.Capture? || a.CaptureFiles? || a.Tick? || a.Start? || a.RestoreFiles?
             || a.RestoreState? || a.GiveUp?
    requires Step(s, a) != s
    ensures var s' := Step(s, a);
            && s'.rt.checkpoints == s.rt.checkpoints && s'.rt.nextCheckpointId == s.rt.nextCheckpointId
            && s'.callers == s.callers[a.c := At(s', a.c)] && a.c in s'.callers
            && (IsTimer(At(s', a.c)) ==> a.c in s.callers && IsTimer(At(s, a.c)) && At(s', a.c).cp == At(s, a.c).cp)
            && (IsUnstored(At(s', a.c)) ==>
                  a.c in s.callers && IsUnstored(At(s, a.c)) && At(s', a.c).cp == At(s, a.c).cp)
            && (At(s', a.c).Filed? ==> FiledOk(At(s', a.c).record))
  {
    hide FilesOf, SettingsPath, Lookup, RollbackTimeout, Slice;
  }

  lemma {:induction false} CallerStepKeepsTimers(s: Sys, a: Action)
    requires TimersInv(s)
    requires a.NextPath? || a.Insert? || a.Capture? || a.CaptureFiles? || a.Tick? || a.Start? || a.RestoreFiles?
             || a.RestoreState? || a.GiveUp?
    ensures TimersInv(Step(s, a))
  {
    if Step(s, a) != s {
      TimerMoves(s, a);
      hide TimersInv, Step;
      MoveKeepsTimers(s, Step(s, a), a.c);
    }
  }

  lemma {:induction false} RestKeepsTimers(s: Sys, s': Sys)
    requires TimersInv(s)
    requires s'.callers == s.callers && s'.rt.checkpoints == s.rt.checkpoints
    requires s'.rt.nextCheckpointId == s.rt.nextCheckpointId
    ensures TimersInv(s')
  {
  }

  lemma {:induction false} StepKeepsTimers(s: Sys, a: Action)
    requires OnePlace(s) && TimersInv(s)
    ensures TimersInv(Step(s, a))
  {
    hide OnePlace, TimersInv, Step;
    if Step(s, a) != s {
      StepTaken(s, a);
      match a
      case NameCheckpoint(c) => NameKeepsTimers(s, c);
      case Store(c) => StoreKeepsTimers(s, c);
      case Adjust(cp, addTimeout) => AdjustKeepsTimers(s, cp, addTimeout);
      case Win(c, cp) => WinKeepsTimers(s, c, cp);
      case Destroy(cp) => WinKeepsTimers(s, 0, cp);
      case NextPath(_) => CallerStepKeepsTimers(s, a);
      case Insert(_, _) => CallerStepKeepsTimers(s, a);
      case Capture(_, _, _) => CallerStepKeepsTimers(s, a);
      case CaptureFiles(_, _) => CallerStepKeepsTimers(s, a);
      case Tick(_) => CallerStepKeepsTimers(s, a);
      case Start(_) => CallerStepKeepsTimers(s, a);
      case RestoreFiles(_) => CallerStepKeepsTimers(s, a);
      case RestoreState(_) => CallerStepKeepsTimers(s, a);
      case GiveUp(_) => CallerStepKeepsTimers(s, a);
      case _ => PassiveStep(s, a); RestKeepsTimers(s, Step(s, a));
    }
  }

  lemma {:induction false} RunKeepsTimers(s: Sys, actions: seq<Action>)
    requires OnePlace(s) && TimersInv(s)
    ensures OnePlace(Run(s, actions)) && TimersInv(Run(s, actions))
  {
    hide OnePlace, TimersInv, Step;
    if actions != [] {
      RunKeepsTimers(s, actions[..|actions| - 1]);
      StepKeepsOnePlace(Run(s, actions[..|actions| - 1]), actions[|actions| - 1]);
      StepKeepsTimers(Run(s, actions[..|actions| - 1]), actions[|actions| - 1]);
    }
  }

  lemma {:induction false} ReachedTimers(s: Sys, actions: seq<Action>)
    requires Initial(s)
    ensures OnePlace(Run(s, actions)) && TimersInv(Run(s, actions))
  {
    InitialOnePlace(s);
    InitialTimersInv(s);
    hide Initial, OnePlace, TimersInv;
    RunKeepsTimers(s, actions);
  }

  // ------------------------------------------------------------------- the clock

  /** The deadline of a checkpoint begun at this time: none without a timeout, otherwise that many whole
      seconds later, or the largest time there is. */
  function DeadlineFor(created: int, timeout: nat): Option<int> {
    if timeout == 0 then None else Some(Min(created + 1000 * timeout, I64_MAX))
  }

  /** A checkpoint in the making was begun in the past, and its deadline is counted from then. */
  predicate ClockOk(caller: Caller, now: int) {
    match caller
    case Named(_, created) => created <= now
    case Captured(_, created, _, _, _) => created <= now
    case Filed(_, record) =>
      record.created <= now && record.deadline == DeadlineFor(record.created, record.rollbackTimeout)
    case _ => true
  }

  ghost predicate ClocksOk(s: Sys) {
    forall c: nat :: ClockOk(At(s, c), s.now)
  }

  lemma {:induction false} StepClock(s: Sys, a: Action)
    ensures Step(s, a).now == s.now + if a.Pass? then a.millis else 0
  {
    if IsPassive(a) {
      hide AfterTableEdit, Without, Repush, Position;
    } else {
      hide StepPassive, FilesOf, SettingsPath, CheckpointPath, Lookup, RollbackTimeout, Slice, Without, AfterAdjust;
    }
  }

  lemma {:induction false} MoverClock(s: Sys, a: Action, c: nat)
    requires Mover(a) == Some(c) && ClockOk(At(s, c), s.now)
    ensures ClockOk(At(Step(s, a), c), s.now)
  {
    hide StepPassive, FilesOf, SettingsPath, CheckpointPath, Lookup, RollbackTimeout, Slice, Without;
  }

  lemma {:induction false} StepKeepsClocks(s: Sys, a: Action)
    requires ClocksOk(s)
    ensures ClocksOk(Step(s, a))
  {
    StepClock(s, a);
    forall c: nat ensures ClockOk(At(Step(s, a), c), Step(s, a).now) {
      assert ClockOk(At(s, c), s.now);
      if Mover(a) == Some(c) {
        MoverClock(s, a, c);
      } else {
        CallerAfter(s, a, c);
      }
      hide Step;
    }
  }

  lemma {:induction false} ReachedClocks(s: Sys, actions: seq<Action>)
    requires Initial(s)
    ensures ClocksOk(Run(s, actions))
  {
    if actions != [] {
      hide Initial, Step, ClocksOk;
      ReachedClocks(s, actions[..|actions| - 1]);
      StepKeepsClocks(Run(s, actions[..|actions| - 1]), actions[|actions| - 1]);
    }
  }

  ghost predicate DeadlinePassed(found: Option<Entry<Checkpoint>>, now: int) {
    found.Some? && found.value.value.deadline.Some? && found.value.value.deadline.value <= now
  }

  ghost predicate DeadlineAhead(found: Option<Entry<Checkpoint>>, now: int) {
    found.Some? && found.value.value.deadline.Some? && now < found.value.value.deadline.value
  }

  lemma {:induction false} TickReads(r: Sys, w: nat)
    requires TimersInv(r) && At(r, w).Watching?
    ensures var cp, r' := At(r, w).cp, Step(r, Tick(w));
            var found := Lookup(r.rt.checkpoints, cp);
            && (At(r', w) == Fired(cp) <==> DeadlinePassed(found, r.now))
            && (At(r', w) == Idle <==> found.None?)
            && (At(r', w) == At(r, w) <==> DeadlineAhead(found, r.now))
  {
    var found := Lookup(r.rt.checkpoints, At(r, w).cp);
    assert Step(r, Tick(w)) == StepTick(r, w, At(r, w).cp);
    if found.Some? {
      assert found.value in r.rt.checkpoints && w in r.callers;
      TimeoutZeroWhenPassed(found.value.value, r.now);
      hide TimersInv, RollbackTimeout, Lookup, Step;
    }
  }

  /** In every run: a timer's check goes on to a rollback exactly when the checkpoint is still
      there and its deadline has passed, ends when the checkpoint is gone, and sleeps on otherwise. */
  lemma {:induction false} TickDecides(s: Sys, actions: seq<Action>, w: nat)
    requires Initial(s) && At(Run(s, actions), w).Watching?
    ensures var r := Run(s, actions);
            var cp, r' := At(r, w).cp, Step(r, Tick(w));
            var found := Lookup(r.rt.checkpoints, cp);
            && (At(r', w) == Fired(cp) <==> DeadlinePassed(found, r.now))
            && (At(r', w) == Idle <==> found.None?)
            && (At(r', w) == At(r, w) <==> DeadlineAhead(found, r.now))
  {
    ReachedTimers(s, actions);
    hide Initial, Run;
    TickReads(Run(s, actions), w);
  }

  // ----------------------------------------------------------- who has a timer

  predicate Ticks(caller: Caller, cp: string) {
    caller == Watching(cp) || caller == Fired(cp)
  }

  /** The caller is the checkpoint's timer, or has still to start it. */
  predicate Attends(caller: Caller, cp: string) {
    caller == Starting(cp) || Ticks(caller, cp)
  }

  ghost predicate Unattended(s: Sys, cp: string) {
    forall c: nat :: !Attends(At(s, c), cp)
  }

  /** The checkpoint has been stored or dropped for good: nobody is about to store it. */
  ghost predicate PastStoring(s: Sys, cp: string) {
    && CheckpointsBelow({cp}, s.rt.nextCheckpointId)
    && (forall c :: c in s.callers && IsUnstored(s.callers[c]) ==> s.callers[c].cp != cp)
  }

  lemma {:induction false} StoredIsPastStoring(s: Sys, cp: string)
    requires OnePlace(s) && cp in PathSet(s.rt.checkpoints)
    ensures PastStoring(s, cp)
  {
    forall c | c in s.callers && IsUnstored(s.callers[c]) ensures s.callers[c].cp != cp {
      assert Owns(s.callers[c]) == Some(s.callers[c].cp) && OwnedElsewhere(s, s.callers[c].cp);
    }
    forall id: nat | id >= s.rt.nextCheckpointId ensures CheckpointPath(id) !in {cp} {
    }
  }

  /** The caller that takes an action, if the action is a caller's own. */
  function Mover(a: Action): Option<nat> {
    match a
    case NextPath(c) => Some(c)
    case Insert(c, _) => Some(c)
    case NameCheckpoint(c) => Some(c)
    case Capture(c, _, _) => Some(c)
    case CaptureFiles(c, _) => Some(c)
    case Tick(c) => Some(c)
    case Win(c, _) => Some(c)
    case RestoreFiles(c) => Some(c)
    case RestoreState(c) => Some(c)
    case GiveUp(c) => Some(c)
    case Store(c) => Some(c)
    case Start(c) => Some(c)
    case _ => None
  }

  /** What an action can make of any one caller, as far as timers and unstored checkpoints go. */
  lemma {:induction false} CallerAfter(s: Sys, a: Action, d: nat)
    ensures var before, after := At(s, d), At(Step(s, a), d);
            || after == before
            || (Mover(a) == Some(d) && !IsTimer(before) && !IsTimer(after))
            || (a == Tick(d) && before.Watching? && (after == Fired(before.cp) || after == Idle))
            || (a.Win? && a.c == d && MayWin(before, a.cp) && !IsTimer(after))
            || (a == Store(d) && before.Filed? && after == Starting(before.cp))
            || (a == Start(d) && before.Starting? && after == Watching(before.cp))
            || (a == GiveUp(d) && before.Starting? && after == Idle)
  {
    if IsPassive(a) {
      PassiveStep(s, a);
      hide Step;
    } else {
      hide StepPassive, FilesOf, SettingsPath, CheckpointPath, Lookup, RollbackTimeout, Slice, Without, AfterAdjust;
    }
  }

  lemma {:induction false} StepKeepsPastStoring(s: Sys, a: Action, cp: string)
    requires PastStoring(s, cp)
    ensures PastStoring(Step(s, a), cp)
  {
    if IsPassive(a) {
      PassiveStep(s, a);
      hide Step;
    } else {
      hide StepPassive, Without, Lookup, AfterAdjust, FilesOf, SettingsPath, Slice, RollbackTimeout;
    }
  }

  /** What one action does to the stored checkpoints. */
  lemma {:induction false} StepTable(s: Sys, a: Action)
    ensures var t, t' := s.rt.checkpoints, Step(s, a).rt.checkpoints;
            match a
            case Win(c, gone) => t' == if MayWin(At(s, c), gone) then Without(t, gone) else t
            case Destroy(gone) => t' == Without(t, gone)
            case Adjust(other, addTimeout) => t' == AfterAdjust(t, other, s.now, addTimeout)
            case Store(c) => t' == if At(s, c).Filed? then t + [Entry(At(s, c).cp, At(s, c).record)] else t
            case _ => t' == t
  {
    if a.Win? || a.Destroy? {
      WithoutAbsent(s.rt.checkpoints, a.cp);
    }
    if IsPassive(a) {
      PassiveStep(s, a);
      hide Step;
    } else {
      hide StepPassive, Without, Lookup, AfterAdjust, FilesOf, SettingsPath, CheckpointPath, Slice, RollbackTimeout;
    }
  }

  lemma {:induction false} AdjustedPlaces(t: Table<Checkpoint>, cp: string, now: int, addTimeout: nat, path: string)
    ensures path in PathSet(AfterAdjust(t, cp, now, addTimeout)) <==> path in PathSet(t)
  {
    AdjustedPaths(t, cp, now, addTimeout);
  }

  /** A checkpoint that is gone, with nobody about to store it, stays gone. */
  lemma {:induction false} GoneStaysGone(s: Sys, a: Action, cp: string)
    requires PastStoring(s, cp) && cp !in PathSet(s.rt.checkpoints)
    ensures cp !in PathSet(Step(s, a).rt.checkpoints)
  {
    var t := s.rt.checkpoints;
    StepTable(s, a);
    match a {
      case Win(_, gone) => WithoutMembers(t, gone);
      case Destroy(gone) => WithoutMembers(t, gone);
      case Adjust(other, addTimeout) => AdjustedPlaces(t, other, s.now, addTimeout, cp);
      case Store(c) =>
        if At(s, c).Filed? {
          assert c in s.callers && At(s, c).cp != cp;
          Snoc(t, Entry(At(s, c).cp, At(s, c).record));
        }
      case _ =>
    }
    hide Step, Without, AfterAdjust;
  }
}
