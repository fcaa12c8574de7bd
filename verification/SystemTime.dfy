/** The rollback timers: which checkpoints have one, what it sees, and when it ends. */
module SystemTime {
  import opened Text
  import opened Tables
  import opened RuntimeState
  import opened RuntimeStore
  import opened System
  import opened SystemSteps
  import opened SystemCheckpoints
  import opened SystemTimers

  // ----------------------------------------------------------- who has a timer

  lemma {:induction false} NobodyBegins(s: Sys, a: Action, d: nat, cp: string)
    requires PastStoring(s, cp) && !Attends(At(s, d), cp)
    ensures !Attends(At(Step(s, a), d), cp)
  {
    CallerAfter(s, a, d);
    hide Step;
    assert At(s, d).Filed? ==> d in s.callers;
  }

  lemma {:induction false} NoTimerStarts(s: Sys, a: Action, cp: string)
    requires PastStoring(s, cp) && Unattended(s, cp)
    ensures Unattended(Step(s, a), cp)
  {
    forall d: nat ensures !Attends(At(Step(s, a), d), cp) {
      assert !Attends(At(s, d), cp);
      NobodyBegins(s, a, d, cp);
    }
  }

  lemma {:induction false} RunStartsNoTimer(s: Sys, actions: seq<Action>, cp: string)
    requires PastStoring(s, cp) && Unattended(s, cp)
    ensures PastStoring(Run(s, actions), cp) && Unattended(Run(s, actions), cp)
  {
    hide Step, PastStoring, Unattended;
    if actions != [] {
      var front, last := actions[..|actions| - 1], actions[|actions| - 1];
      RunStartsNoTimer(s, front, cp);
      StepKeepsPastStoring(Run(s, front), last, cp);
      NoTimerStarts(Run(s, front), last, cp);
    }
  }

  lemma {:induction false} TickFindsIt(s: Sys, w: nat)
    requires At(s, w).Watching? && Lookup(s.rt.checkpoints, At(s, w).cp).Some?
    ensures At(Step(s, Tick(w)), w) != Idle
  {
    hide Lookup, RollbackTimeout;
  }

  /** As long as a checkpoint is stored its timer watches it, and a timer that has fired stays so. */
  lemma {:induction false} TimerStays(s: Sys, a: Action, w: nat, cp: string)
    requires OnePlace(s) && PastStoring(s, cp) && Ticks(At(s, w), cp)
    requires cp in PathSet(Step(s, a).rt.checkpoints)
    ensures Ticks(At(Step(s, a), w), cp)
    ensures At(s, w) == Fired(cp) ==> At(Step(s, a), w) == Fired(cp)
  {
    if cp !in PathSet(s.rt.checkpoints) {
      GoneStaysGone(s, a, cp);
    }
    WithoutFacts(s.rt.checkpoints, cp);
    hide OnePlace, PastStoring;
    CallerAfter(s, a, w);
    StepTable(s, a);
    if a == Tick(w) && At(s, w).Watching? {
      TickFindsIt(s, w);
    }
    hide Step, PathSet, Without;
  }

  lemma {:induction false} RunKeepsTimer(s: Sys, actions: seq<Action>, w: nat, cp: string)
    requires OnePlace(s) && PastStoring(s, cp) && Ticks(At(s, w), cp)
    ensures var r := Run(s, actions);
            && OnePlace(r) && PastStoring(r, cp)
            && (cp in PathSet(r.rt.checkpoints) ==>
                  Ticks(At(r, w), cp) && (At(s, w) == Fired(cp) ==> At(r, w) == Fired(cp)))
  {
    hide Step, OnePlace, PastStoring, PathSet;
    if actions != [] {
      var front, last := actions[..|actions| - 1], actions[|actions| - 1];
      RunKeepsTimer(s, front, w, cp);
      var before := Run(s, front);
      StepKeepsOnePlace(before, last);
      StepKeepsPastStoring(before, last, cp);
      if cp !in PathSet(before.rt.checkpoints) {
        GoneStaysGone(before, last, cp);
      } else if cp in PathSet(Step(before, last).rt.checkpoints) {
        TimerStays(before, last, w, cp);
      }
    }
  }

  // ------------------------------------------------- from the storing to the timer

  /** What becomes of the start of a timer: the caller that is to start it does so, or gives up. */
  datatype Fate = Undecided | Started | Dropped

  function FateOf(actions: seq<Action>, c: nat): Fate {
    if actions == [] then Undecided
    else
      var before, last := FateOf(actions[..|actions| - 1], c), actions[|actions| - 1];
      if before != Undecided then before
      else if last == Start(c) then Started
      else if last == GiveUp(c) then Dropped
      else Undecided
  }

  /** While the checkpoint is stored: where its timer is, and that it is nowhere else. */
  ghost predicate Attended(s: Sys, c: nat, cp: string, timed: bool, fate: Fate) {
    && (forall d: nat :: d != c ==> !Attends(At(s, d), cp))
    && (cp in PathSet(s.rt.checkpoints) ==>
          if !timed || fate == Dropped then !Attends(At(s, c), cp)
          else if fate == Started then Ticks(At(s, c), cp)
          else At(s, c) == Starting(cp))
  }

  /** The caller that is to start a timer waits for the outcome of the registration. */
  lemma {:induction false} StartingStays(s: Sys, a: Action, c: nat, cp: string)
    requires At(s, c) == Starting(cp)
    ensures At(Step(s, a), c)
         == if a == Start(c) then Watching(cp) else if a == GiveUp(c) then Idle else Starting(cp)
  {
    if Mover(a) == Some(c) {
      hide StepPassive, FilesOf, Lookup, RollbackTimeout, Slice, Without;
    } else {
      CallerAfter(s, a, c);
      hide Step;
    }
  }

  lemma {:induction false} AttendedStays(s: Sys, a: Action, c: nat, cp: string, timed: bool, fate: Fate)
    requires OnePlace(s) && PastStoring(s, cp) && Attended(s, c, cp, timed, fate)
    ensures var later := if fate != Undecided then fate else if a == Start(c) then Started
                         else if a == GiveUp(c) then Dropped else Undecided;
            Attended(Step(s, a), c, cp, timed, later)
  {
    forall d: nat | d != c ensures !Attends(At(Step(s, a), d), cp) {
      NobodyBegins(s, a, d, cp);
    }
    if cp !in PathSet(s.rt.checkpoints) {
      GoneStaysGone(s, a, cp);
    } else if cp in PathSet(Step(s, a).rt.checkpoints) {
      hide Step, PathSet, OnePlace, PastStoring;
      if Ticks(At(s, c), cp) {
        TimerStays(s, a, c, cp);
      } else if At(s, c) == Starting(cp) {
        StartingStays(s, a, c, cp);
      } else {
        NobodyBegins(s, a, c, cp);
      }
    }
  }

  lemma {:induction false} RunStaysAttended(s: Sys, actions: seq<Action>, c: nat, cp: string, timed: bool)
    requires OnePlace(s) && PastStoring(s, cp) && Attended(s, c, cp, timed, Undecided)
    ensures OnePlace(Run(s, actions)) && PastStoring(Run(s, actions), cp)
    ensures Attended(Run(s, actions), c, cp, timed, FateOf(actions, c))
  {
    hide Step, OnePlace, PastStoring, Attended;
    if actions != [] {
      var front, last := actions[..|actions| - 1], actions[|actions| - 1];
      RunStaysAttended(s, front, c, cp, timed);
      StepKeepsOnePlace(Run(s, front), last);
      StepKeepsPastStoring(Run(s, front), last, cp);
      AttendedStays(Run(s, front), last, c, cp, timed, FateOf(front, c));
    }
  }

  /** The moment of storing: a timer is to be started exactly when a timeout was asked for. */
  lemma {:induction false} StoreAttended(r: Sys, c: nat)
    requires OnePlace(r) && TimersInv(r) && At(r, c).Filed?
    ensures var cp, record := At(r, c).cp, At(r, c).record;
            var stored := StepStore(r, c, cp, record);
            && cp in PathSet(stored.rt.checkpoints)
            && Attended(stored, c, cp, record.rollbackTimeout > 0, Undecided)
  {
    var cp, record := At(r, c).cp, At(r, c).record;
    assert c in r.callers && IsUnstored(r.callers[c]) && FiledOk(record);
    forall d: nat | d in r.callers ensures !Attends(At(r, d), cp) {
    }
    Snoc(r.rt.checkpoints, Entry(cp, record));
    hide OnePlace, TimersInv, PathSet;
  }

  /** Exactly which checkpoints have a timer. After a checkpoint is stored, through any run and for as
      long as it stays stored, some timer watches it or has fired for it if and only if a timeout was
      asked for and the creation has gone on to start the timer. Adjusts make no difference. */
  lemma {:induction false} TimerIffTimeout(s: Sys, before: seq<Action>, c: nat, between: seq<Action>)
    requires Initial(s) && At(Run(s, before), c).Filed?
    requires At(Run(s, before), c).cp in PathSet(Run(Step(Run(s, before), Store(c)), between).rt.checkpoints)
    ensures var r := Run(s, before);
            var end := Run(Step(r, Store(c)), between);
            (exists w: nat :: Ticks(At(end, w), At(r, c).cp))
            <==> At(r, c).record.rollbackTimeout > 0 && FateOf(between, c) == Started
  {
    var r := Run(s, before);
    var cp := At(r, c).cp;
    var timed := At(r, c).record.rollbackTimeout > 0;
    var stored := Step(r, Store(c));
    ReachedTimers(s, before);
    StepKeepsOnePlace(r, Store(c));
    StoreAttended(r, c);
    assert stored == StepStore(r, c, cp, At(r, c).record);
    StoredIsPastStoring(stored, cp);
    hide Initial, OnePlace, TimersInv, PastStoring, PathSet, Step, StepStore, Run, FateOf;
    RunStaysAttended(stored, between, c, cp, timed);
    assert Ticks(At(Run(stored, between), c), cp) <==> timed && FateOf(between, c) == Started;
  }

  /** A checkpoint found without a deadline has no timer, at any later time; an adjust gives it a
      deadline all the same, which nothing watches. */
  lemma {:induction false} AdjustStartsNoTimer(s: Sys, before: seq<Action>, cp: string, addTimeout: nat,
                                               between: seq<Action>)
    requires Initial(s)
    requires var found := Lookup(Run(s, before).rt.checkpoints, cp);
             found.Some? && found.value.value.deadline.None?
    ensures var adjusted := Step(Run(s, before), Adjust(cp, addTimeout));
            var found := Lookup(adjusted.rt.checkpoints, cp);
            && found.Some? && found.value.value.deadline.Some?
            && Unattended(Run(adjusted, between), cp)
  {
    var r := Run(s, before);
    var adjusted := Step(r, Adjust(cp, addTimeout));
    ReachedTimers(s, before);
    StoredIsPastStoring(r, cp);
    NotWatched(r, cp);
    StepKeepsPastStoring(r, Adjust(cp, addTimeout), cp);
    NoTimerStarts(r, Adjust(cp, addTimeout), cp);
    hide Initial, OnePlace, TimersInv, PastStoring, Unattended, Run;
    RunStartsNoTimer(adjusted, between, cp);
    AdjustedRecord(r, cp, addTimeout);
  }

  lemma {:induction false} NotWatched(r: Sys, cp: string)
    requires TimersInv(r) && Lookup(r.rt.checkpoints, cp).Some?
    requires Lookup(r.rt.checkpoints, cp).value.value.deadline.None?
    ensures Unattended(r, cp)
  {
    var e := Lookup(r.rt.checkpoints, cp).value;
    forall c: nat ensures !Attends(At(r, c), cp) {
      assert c in r.callers && IsTimer(r.callers[c]) && r.callers[c].cp == e.path ==> e.value.deadline.Some?;
    }
  }

  lemma {:induction false} SamePosition<V>(t: Table<V>, u: Table<V>, path: string)
    requires |t| == |u| && forall i :: 0 <= i < |t| ==> t[i].path == u[i].path
    ensures Position(t, path) == Position(u, path)
  {
    var i, j := Position(t, path), Position(u, path);
    assert i < |t| ==> u[i].path == path;
    assert j < |u| ==> t[j].path == path;
  }

  lemma {:induction false} AdjustedRecord(s: Sys, cp: string, addTimeout: nat)
    requires Lookup(s.rt.checkpoints, cp).Some?
    ensures var t, t' := s.rt.checkpoints, Step(s, Adjust(cp, addTimeout)).rt.checkpoints;
            Lookup(t', cp) == Some(Entry(cp, Adjusted(Lookup(t, cp).value.value, s.now, addTimeout)))
  {
    StepTable(s, Adjust(cp, addTimeout));
    hide Step;
    var t, t' := s.rt.checkpoints, AfterAdjust(s.rt.checkpoints, cp, s.now, addTimeout);
    SamePosition(t, t', cp);
    assert Lookup(t', cp) == Some(t'[Position(t, cp)]);
    hide AfterAdjust, Lookup, Adjusted;
  }

  /** A checkpoint without a timer leaves the table only by hand. */
  lemma {:induction false} UnwatchedEndsByHand(s: Sys, a: Action, cp: string)
    requires OnePlace(s) && Unattended(s, cp)
    requires cp in PathSet(s.rt.checkpoints) && cp !in PathSet(Step(s, a).rt.checkpoints)
    ensures a == Destroy(cp) || (a.Win? && a.cp == cp && At(s, a.c) == Idle)
  {
    var t := s.rt.checkpoints;
    StepTable(s, a);
    match a {
      case Win(c, gone) =>
        WithoutFacts(t, gone);
        assert !Attends(At(s, c), cp);
      case Destroy(gone) => WithoutFacts(t, gone);
      case Adjust(other, addTimeout) => AdjustedPlaces(t, other, s.now, addTimeout, cp);
      case Store(c) =>
      case _ =>
    }
    hide Step, PathSet, OnePlace, Without, AfterAdjust;
  }

  // ------------------------------------------------------------------- deadlines

  predicate AdjustsIt(a: Action, cp: string) {
    a.Adjust? && a.cp == cp
  }

  function Elapsed(actions: seq<Action>): nat {
    if actions == [] then 0
    else
      var rest := Elapsed(actions[..|actions| - 1]);
      match actions[|actions| - 1] case Pass(millis) => rest + millis case _ => rest
  }

  lemma {:induction false} ElapsedIsTheClock(s: Sys, actions: seq<Action>)
    ensures Run(s, actions).now == s.now + Elapsed(actions)
  {
    if actions != [] {
      ElapsedIsTheClock(s, actions[..|actions| - 1]);
      StepClock(Run(s, actions[..|actions| - 1]), actions[|actions| - 1]);
    }
  }

  lemma {:induction false} ElapsedConcat(a: seq<Action>, b: seq<Action>)
    ensures Elapsed(a + b) == Elapsed(a) + Elapsed(b)
  {
    if b == [] {
      assert a + b == a;
    } else {
      assert (a + b)[..|a + b| - 1] == a + b[..|b| - 1];
      ElapsedConcat(a, b[..|b| - 1]);
    }
  }

  /** As long as it is stored, it has this deadline. */
  ghost predicate DeadlineStays(s: Sys, cp: string, deadline: int) {
    forall e :: e in s.rt.checkpoints && e.path == cp ==> e.value.deadline == Some(deadline)
  }

  function Extended(deadline: int, now: int, addTimeout: nat): int {
    SaturatingAdd(Max(deadline, now), addTimeout * 1000)
  }

  /** Where the adjusts among these actions move a deadline, from the clock and the amounts alone. */
  function AdjustedDeadline(deadline: int, now: int, actions: seq<Action>, cp: string): int {
    if actions == [] then deadline
    else
      var front, last := actions[..|actions| - 1], actions[|actions| - 1];
      var before := AdjustedDeadline(deadline, now, front, cp);
      if AdjustsIt(last, cp) then Extended(before, now + Elapsed(front), last.addTimeout) else before
  }

  lemma {:induction false} NoAdjustNoMove(deadline: int, now: int, actions: seq<Action>, cp: string)
    requires forall a :: a in actions ==> !AdjustsIt(a, cp)
    ensures AdjustedDeadline(deadline, now, actions, cp) == deadline
  {
    if actions != [] {
      var front, last := actions[..|actions| - 1], actions[|actions| - 1];
      assert actions == front + [last] && last in actions && forall a :: a in front ==> a in actions;
      NoAdjustNoMove(deadline, now, front, cp);
    }
  }

  lemma {:induction false} StepMovesDeadline(s: Sys, a: Action, cp: string, deadline: int)
    requires OnePlace(s) && PastStoring(s, cp) && DeadlineStays(s, cp, deadline)
    ensures DeadlineStays(Step(s, a), cp,
                          if AdjustsIt(a, cp) then Extended(deadline, s.now, a.addTimeout) else deadline)
  {
    var t, t' := s.rt.checkpoints, Step(s, a).rt.checkpoints;
    StepTable(s, a);
    assert Distinct(t);
    hide Step, Without, OnePlace;
    match a {
      case Win(_, gone) => WithoutMembers(t, gone);
      case Destroy(gone) => WithoutMembers(t, gone);
      case Adjust(other, addTimeout) => AdjustMovesOne(t, other, s.now, addTimeout, cp, deadline);
      case Store(c) =>
        if At(s, c).Filed? {
          assert c in s.callers && At(s, c).cp != cp;
        }
      case _ =>
    }
  }

  lemma {:induction false} AdjustMovesOne(t: Table<Checkpoint>, other: string, now: int, addTimeout: nat, cp: string,
                                          deadline: int)
    requires Distinct(t) && forall e :: e in t && e.path == cp ==> e.value.deadline == Some(deadline)
    ensures var moved := if other == cp then Extended(deadline, now, addTimeout) else deadline;
            forall e :: e in AfterAdjust(t, other, now, addTimeout) && e.path == cp ==> e.value.deadline == Some(moved)
  {
    var t' := AfterAdjust(t, other, now, addTimeout);
    var i := Position(t, other);
    assert forall j :: 0 <= j < |t| && i < |t| && j != i ==> t[j].path != t[i].path;
    forall e | e in t' && e.path == cp
      ensures e.value.deadline == Some(if other == cp then Extended(deadline, now, addTimeout) else deadline)
    {
      var k :| 0 <= k < |t'| && t'[k] == e;
      assert t[k] in t && t[k].path == cp;
    }
  }

  lemma {:induction false} RunMovesDeadline(s: Sys, actions: seq<Action>, cp: string, deadline: int)
    requires OnePlace(s) && PastStoring(s, cp) && DeadlineStays(s, cp, deadline)
    ensures var r := Run(s, actions);
            OnePlace(r) && PastStoring(r, cp) && DeadlineStays(r, cp, AdjustedDeadline(deadline, s.now, actions, cp))
  {
    hide Step, OnePlace, PastStoring, DeadlineStays, Extended;
    if actions != [] {
      var front, last := actions[..|actions| - 1], actions[|actions| - 1];
      RunMovesDeadline(s, front, cp, deadline);
      ElapsedIsTheClock(s, front);
      var before := Run(s, front);
      StepKeepsOnePlace(before, last);
      StepKeepsPastStoring(before, last, cp);
      StepMovesDeadline(before, last, cp, AdjustedDeadline(deadline, s.now, front, cp));
    }
  }

  lemma {:induction false} OnlyOneStored(r: Sys, cp: string, e: Entry<Checkpoint>)
    requires OnePlace(r) && e in r.rt.checkpoints && e.path == cp
    ensures forall f :: f in r.rt.checkpoints && f.path == cp ==> f == e
  {
    var t := r.rt.checkpoints;
    forall f | f in t && f.path == cp ensures f == e {
      var i :| 0 <= i < |t| && t[i] == e;
      var j :| 0 <= j < |t| && t[j] == f;
      DistinctLookup(t, i);
      DistinctLookup(t, j);
    }
  }

  /** In every run, a checkpoint about to be stored was begun in the past and has exactly the deadline asked
      for: none without a timeout, otherwise the timeout in seconds after the beginning, in milliseconds and
      short of 64 bits. So it reports no more seconds than were asked for. */
  lemma {:induction false} NewTimeoutIsAsked(s: Sys, actions: seq<Action>, c: nat)
    requires Initial(s) && At(Run(s, actions), c).Filed?
    ensures var r := Run(s, actions);
            var record := At(r, c).record;
            && record.created <= r.now
            && (record.rollbackTimeout == 0 ==> record.deadline == None)
            && (record.rollbackTimeout > 0 ==>
                  record.deadline == Some(Min(record.created + 1000 * record.rollbackTimeout, I64_MAX)))
            && RollbackTimeout(record, r.now) <= record.rollbackTimeout
  {
    ReachedTimers(s, actions);
    ReachedClocks(s, actions);
    var r := Run(s, actions);
    var record := At(r, c).record;
    assert c in r.callers && FiledOk(record) && ClockOk(At(r, c), r.now);
    hide Initial, Run, TimersInv, OnePlace, ClocksOk;
    if record.deadline.Some? && record.deadline.value > r.now {
      var deadline, asked, now := record.deadline.value, record.rollbackTimeout, r.now;
      SecondsLeftIsLeast(deadline, now);
      assert asked < SecondsLeft(deadline, now) ==> now + 1000 * asked < deadline;
    }
  }

  lemma {:induction false} NewDeadlineIsNear(s: Sys, actions: seq<Action>, c: nat)
    requires Initial(s) && At(Run(s, actions), c).Filed? && At(Run(s, actions), c).record.rollbackTimeout > 0
    ensures var r := Run(s, actions);
            var record := At(r, c).record;
            record.deadline.Some? && record.deadline.value <= r.now + 1000 * record.rollbackTimeout
  {
    hide Initial, Run;
    NewTimeoutIsAsked(s, actions, c);
  }

  lemma {:induction false} FoundDeadline(r: Sys, cp: string)
    requires OnePlace(r) && Lookup(r.rt.checkpoints, cp).Some?
         && Lookup(r.rt.checkpoints, cp).value.value.deadline.Some?
    ensures PastStoring(r, cp) && DeadlineStays(r, cp, Lookup(r.rt.checkpoints, cp).value.value.deadline.value)
  {
    StoredIsPastStoring(r, cp);
    OnlyOneStored(r, cp, Lookup(r.rt.checkpoints, cp).value);
  }

  // ---------------------------------------------------------- the automatic rollback

  /** A timer fires when it sees the deadline passed. Whatever happens before it takes the checkpoint,
      if the checkpoint is still there it wins it, and the deadline by then is the one it saw, moved
      by the adjusts in between and by nothing else. Without an adjust it has still passed. */
  lemma {:induction false} FiredRollsBack(s: Sys, actions: seq<Action>, w: nat, between: seq<Action>)
    requires Initial(s) && At(Run(s, actions), w).Watching? && At(Step(Run(s, actions), Tick(w)), w).Fired?
    requires var cp := At(Run(s, actions), w).cp;
             Lookup(Run(Step(Run(s, actions), Tick(w)), between).rt.checkpoints, cp).Some?
    ensures var r, cp := Run(s, actions), At(Run(s, actions), w).cp;
            var end := Run(Step(r, Tick(w)), between);
            var seen, found := Lookup(r.rt.checkpoints, cp), Lookup(end.rt.checkpoints, cp);
            && At(end, w) == Fired(cp) && At(Step(end, Win(w, cp)), w).Won?
            && DeadlinePassed(seen, r.now) && seen.value.value.deadline.value <= I64_MAX
            && found.value.value.deadline == Some(AdjustedDeadline(seen.value.value.deadline.value, r.now, between, cp))
            && ((forall a :: a in between ==> !AdjustsIt(a, cp)) ==> DeadlinePassed(found, end.now))
  {
    var r, cp := Run(s, actions), At(Run(s, actions), w).cp;
    var fired := Step(r, Tick(w));
    var end := Run(fired, between);
    ReachedTimers(s, actions);
    TickReads(r, w);
    TickOnly(r, w);
    SeenDeadline(r, cp);
    StepKeepsOnePlace(r, Tick(w));
    hide Initial, TimersInv, Step, Run, AdjustedDeadline;
    FoundDeadline(fired, cp);
    var deadline := Lookup(r.rt.checkpoints, cp).value.value.deadline.value;
    RunKeepsTimer(fired, between, w, cp);
    RunMovesDeadline(fired, between, cp, deadline);
    assert Lookup(end.rt.checkpoints, cp).value in end.rt.checkpoints;
    WinTakes(end, w, cp);
    ElapsedIsTheClock(fired, between);
    if forall a :: a in between ==> !AdjustsIt(a, cp) {
      NoAdjustNoMove(deadline, fired.now, between, cp);
    }
  }

  lemma {:induction false} SeenDeadline(r: Sys, cp: string)
    requires TimersInv(r) && Lookup(r.rt.checkpoints, cp).Some?
    ensures DeadlineOk(Lookup(r.rt.checkpoints, cp).value.value)
  {
    assert Lookup(r.rt.checkpoints, cp).value in r.rt.checkpoints;
  }

  lemma {:induction false} TickOnly(s: Sys, w: nat)
    ensures var s' := Step(s, Tick(w)); s'.rt == s.rt && s'.now == s.now
    ensures At(s, w).Watching? && At(Step(s, Tick(w)), w).Fired? ==> At(Step(s, Tick(w)), w) == Fired(At(s, w).cp)
  {
    hide Lookup, RollbackTimeout;
  }

  lemma {:induction false} WinTakes(s: Sys, w: nat, cp: string)
    requires At(s, w) == Fired(cp) && Lookup(s.rt.checkpoints, cp).Some?
    ensures At(Step(s, Win(w, cp)), w).Won?
  {
    hide Without, Lookup;
    assert Step(s, Win(w, cp)) == StepWin(s, w, cp);
  }

  lemma {:induction false} OneAdjust(deadline: int, now: int, pre: seq<Action>, cp: string, addTimeout: nat,
                                     post: seq<Action>)
    requires forall a :: a in pre + post ==> !AdjustsIt(a, cp)
    ensures var between := pre + [Adjust(cp, addTimeout)] + post;
            && AdjustedDeadline(deadline, now, between, cp) == Extended(deadline, now + Elapsed(pre), addTimeout)
            && Elapsed(between) == Elapsed(pre) + Elapsed(post)
  {
    var adjusting := pre + [Adjust(cp, addTimeout)];
    assert adjusting[..|pre|] == pre;
    ElapsedConcat(adjusting, post);
    hide Extended;
    if post == [] {
      assert adjusting + post == adjusting;
      assert forall a :: a in pre ==> a in pre + post;
      NoAdjustNoMove(deadline, now, pre, cp);
    } else {
      var front, last := post[..|post| - 1], post[|post| - 1];
      assert last in pre + post && forall a :: a in pre + front ==> a in pre + post;
      OneAdjust(deadline, now, pre, cp, addTimeout, front);
      assert (adjusting + post)[..|adjusting + post| - 1] == adjusting + front;
    }
  }

  /** An adjust between a timer's check and its rollback comes too late, and exactly how late: the
      timer takes the checkpoint with its deadline still ahead if and only if less time has gone by
      since the adjust than it added. */
  lemma {:induction false} AdjustAfterCheckIsTooLate(s: Sys, actions: seq<Action>, w: nat, pre: seq<Action>,
                                                     addTimeout: nat,
                                                     post: seq<Action>)
    requires Initial(s) && At(Run(s, actions), w).Watching? && At(Step(Run(s, actions), Tick(w)), w).Fired?
    requires var cp := At(Run(s, actions), w).cp;
             var end := Run(Step(Run(s, actions), Tick(w)), pre + [Adjust(cp, addTimeout)] + post);
             && Lookup(end.rt.checkpoints, cp).Some? && end.now < I64_MAX
             && forall a :: a in pre + post ==> !AdjustsIt(a, cp)
    ensures var cp := At(Run(s, actions), w).cp;
            var end := Run(Step(Run(s, actions), Tick(w)), pre + [Adjust(cp, addTimeout)] + post);
            && At(Step(end, Win(w, cp)), w).Won?
            && (DeadlineAhead(Lookup(end.rt.checkpoints, cp), end.now) <==> Elapsed(post) < 1000 * addTimeout)
  {
    var r, cp := Run(s, actions), At(Run(s, actions), w).cp;
    var between := pre + [Adjust(cp, addTimeout)] + post;
    FiredRollsBack(s, actions, w, between);
    TickOnly(r, w);
    hide Initial, Step, Run, AdjustedDeadline;
    ElapsedIsTheClock(Step(r, Tick(w)), between);
    OneAdjust(Lookup(r.rt.checkpoints, cp).value.value.deadline.value, r.now, pre, cp, addTimeout, post);
    hide Elapsed, Lookup;
  }

  // ----------------------------------------------------------------- the timer ends

  /** One check of the timer that ends at or after the deadline ends the timer. */
  lemma {:induction false} LateTickEnds(s: Sys, w: nat, cp: string, deadline: int)
    requires PastStoring(s, cp) && DeadlineStays(s, cp, deadline) && deadline <= s.now
    ensures At(Step(s, Tick(w)), w) != Watching(cp)
  {
    var found := Lookup(s.rt.checkpoints, cp);
    if At(s, w) == Watching(cp) && found.Some? {
      assert found.value in s.rt.checkpoints && found.value.value.deadline == Some(deadline);
      assert RollbackTimeout(found.value.value, s.now) == 0;
    }
  }

  /** Rounds of a timer: whatever else happens, at least a second passes and then it checks. */
  ghost predicate IsRound(round: seq<Action>, w: nat) {
    round != [] && round[|round| - 1] == Tick(w) && Elapsed(round) >= 1000
  }

  function Flat(rounds: seq<seq<Action>>): seq<Action> {
    if rounds == [] then [] else Flat(rounds[..|rounds| - 1]) + rounds[|rounds| - 1]
  }

  lemma {:induction false} RoundsTakeTime(rounds: seq<seq<Action>>, w: nat)
    requires forall r :: r in rounds ==> IsRound(r, w)
    ensures Elapsed(Flat(rounds)) >= 1000 * |rounds|
    ensures rounds != [] ==> Flat(rounds) != [] && Flat(rounds)[|Flat(rounds)| - 1] == Tick(w)
  {
    if rounds != [] {
      var front, last := rounds[..|rounds| - 1], rounds[|rounds| - 1];
      assert last in rounds && forall r :: r in front ==> r in rounds;
      RoundsTakeTime(front, w);
      ElapsedConcat(Flat(front), last);
    }
  }

  /** Rounds that start when at most a second for each is left to the deadline end the timer. */
  lemma {:induction false} RoundsEnd(r: Sys, w: nat, cp: string, deadline: int, rounds: seq<seq<Action>>)
    requires OnePlace(r) && PastStoring(r, cp) && DeadlineStays(r, cp, deadline)
    requires rounds != [] && deadline <= r.now + 1000 * |rounds|
    requires forall k :: k in rounds ==> IsRound(k, w)
    requires forall a :: a in Flat(rounds) ==> !AdjustsIt(a, cp)
    ensures At(Run(r, Flat(rounds)), w) != Watching(cp)
  {
    RoundsTakeTime(rounds, w);
    var all := Flat(rounds);
    var prefix := all[..|all| - 1];
    assert all == prefix + [Tick(w)];
    assert forall a :: a in prefix ==> a in all;
    hide OnePlace, Flat, IsRound, Step, AdjustedDeadline;
    RunMovesDeadline(r, prefix, cp, deadline);
    NoAdjustNoMove(deadline, r.now, prefix, cp);
    ElapsedIsTheClock(r, prefix);
    ElapsedConcat(prefix, [Tick(w)]);
    assert Elapsed([Tick(w)]) == 0;
    LateTickEnds(Run(r, prefix), w, cp, deadline);
  }

  /** In every run, a timer ends within the requested number of rounds. The checkpoint is stored with
      its timeout, its creation goes on to start the timer after whatever happens meanwhile, and from
      then on each round lets at least a second go by before the timer checks. Whatever else happens,
      unless somebody adjusts the checkpoint, the timer no longer sleeps after that many rounds. */
  lemma {:induction false} TimerEndsInTime(s: Sys, before: seq<Action>, c: nat, waiting: seq<Action>,
                                           rounds: seq<seq<Action>>)
    requires Initial(s) && At(Run(s, before), c).Filed?
    requires 0 < At(Run(s, before), c).record.rollbackTimeout <= |rounds|
    requires FateOf(waiting, c) == Undecided
    requires forall k :: k in rounds ==> IsRound(k, c)
    requires forall a :: a in waiting + Flat(rounds) ==> !AdjustsIt(a, At(Run(s, before), c).cp)
    ensures var r := Run(s, before);
            var cp, waited := At(r, c).cp, Run(Step(r, Store(c)), waiting);
            && (cp in PathSet(waited.rt.checkpoints) ==> At(Step(waited, Start(c)), c) == Watching(cp))
            && At(Run(Step(waited, Start(c)), Flat(rounds)), c) != Watching(cp)
  {
    var r := Run(s, before);
    var cp, record := At(r, c).cp, At(r, c).record;
    var stored := Step(r, Store(c));
    var waited := Run(stored, waiting);
    var started := Step(waited, Start(c));
    ReachedTimers(s, before);
    NewDeadlineIsNear(s, before, c);
    StepKeepsOnePlace(r, Store(c));
    StoreAttended(r, c);
    StepClock(r, Store(c));
    assert stored == StepStore(r, c, cp, record);
    StoredIsPastStoring(stored, cp);
    StoredDeadline(r, c);
    var deadline := record.deadline.value;
    assert forall a :: a in waiting || a in Flat(rounds) ==> a in waiting + Flat(rounds);
    hide Initial, OnePlace, TimersInv, PastStoring, PathSet, StepStore, Run, FateOf, DeadlineStays, AdjustedDeadline;
    RunStaysAttended(stored, waiting, c, cp, true);
    RunMovesDeadline(stored, waiting, cp, deadline);
    NoAdjustNoMove(deadline, stored.now, waiting, cp);
    ElapsedIsTheClock(stored, waiting);
    StepKeepsOnePlace(waited, Start(c));
    StepKeepsPastStoring(waited, Start(c), cp);
    StepMovesDeadline(waited, Start(c), cp, deadline);
    StepClock(waited, Start(c));
    hide Step;
    if At(waited, c) == Starting(cp) {
      StartingStays(waited, Start(c), c, cp);
    }
    RoundsEnd(started, c, cp, deadline, rounds);
  }

  /** The record just stored is the only one under its path. */
  lemma {:induction false} StoredDeadline(r: Sys, c: nat)
    requires OnePlace(r) && At(r, c).Filed? && At(r, c).record.deadline.Some?
    ensures DeadlineStays(StepStore(r, c, At(r, c).cp, At(r, c).record), At(r, c).cp, At(r, c).record.deadline.value)
  {
    assert c in r.callers && Owns(r.callers[c]) == Some(At(r, c).cp);
    assert OwnedElsewhere(r, At(r, c).cp);
  }

  /** And from any state that a run reaches, adjusted or not, within the number of rounds reported then,
      unless the report is the largest there is. */
  lemma {:induction false} TimerEndsAsReported(s: Sys, actions: seq<Action>, w: nat, rounds: seq<seq<Action>>)
    requires Initial(s) && At(Run(s, actions), w).Watching?
    requires var r, cp := Run(s, actions), At(Run(s, actions), w).cp;
             && Lookup(r.rt.checkpoints, cp).Some?
             && var left := RollbackTimeout(Lookup(r.rt.checkpoints, cp).value.value, r.now);
                left < U32_MAX && |rounds| >= left && rounds != []
    requires forall k :: k in rounds ==> IsRound(k, w)
    requires forall a :: a in Flat(rounds) ==> !AdjustsIt(a, At(Run(s, actions), w).cp)
    ensures At(Run(Run(s, actions), Flat(rounds)), w) != Watching(At(Run(s, actions), w).cp)
  {
    ReachedTimers(s, actions);
    var r, cp := Run(s, actions), At(Run(s, actions), w).cp;
    hide Initial, OnePlace, Run, Flat, IsRound;
    TimedOutWithin(r, w);
    hide TimersInv, RollbackTimeout;
    RoundsEnd(r, w, cp, Lookup(r.rt.checkpoints, cp).value.value.deadline.value, rounds);
  }

  lemma {:induction false} TimedOutWithin(r: Sys, w: nat)
    requires OnePlace(r) && TimersInv(r) && At(r, w).Watching? && Lookup(r.rt.checkpoints, At(r, w).cp).Some?
    requires RollbackTimeout(Lookup(r.rt.checkpoints, At(r, w).cp).value.value, r.now) < U32_MAX
    ensures var found := Lookup(r.rt.checkpoints, At(r, w).cp).value.value;
            && found.deadline.Some? && found.deadline.value <= r.now + 1000 * RollbackTimeout(found, r.now)
            && PastStoring(r, At(r, w).cp) && DeadlineStays(r, At(r, w).cp, found.deadline.value)
  {
    var e := Lookup(r.rt.checkpoints, At(r, w).cp).value;
    assert e in r.rt.checkpoints && w in r.callers && e.value.deadline.Some? && DeadlineOk(e.value);
    hide TimersInv;
    FoundDeadline(r, At(r, w).cp);
    if e.value.deadline.value > r.now {
      SecondsLeftIsLeast(e.value.deadline.value, r.now);
    }
  }
}
