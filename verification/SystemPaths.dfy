/** Settings paths under every interleaving: no path is issued twice, live records have
    distinct paths, and a path waiting to be inserted is nowhere yet. */
module SystemPaths {
  import opened Text
  import opened ObjectPaths
  import opened Tables
  import opened RuntimeState
  import opened RuntimeStore
  import opened System
  import opened SystemSteps
  import opened SyncConnectionFacts

  /** The connection table a caller carries in a snapshot. */
  function InFlight(caller: Caller): Option<Table<Connection>> {
    match caller
    case Captured(_, _, _, _, snapshot) => Some(snapshot.connections)
    case Filed(_, record) => Some(record.snapshot.connections)
    case Won(_, record) => Some(record.snapshot.connections)
    case FilesBack(_, record) => Some(record.snapshot.connections)
    case _ => None
  }

  ghost predicate StoredTable(checkpoints: Table<Checkpoint>, t: Table<Connection>) {
    exists e :: e in checkpoints && e.value.snapshot.connections == t
  }

  ghost predicate CarriedTable(callers: map<nat, Caller>, t: Table<Connection>) {
    exists c :: c in callers && InFlight(callers[c]) == Some(t)
  }

  /** The live table, the table of a stored snapshot or of a snapshot in flight. */
  ghost predicate Held(s: Sys, t: Table<Connection>) {
    t == s.rt.connections || StoredTable(s.rt.checkpoints, t) || CarriedTable(s.callers, t)
  }

  ghost predicate TablesInOrder(s: Sys) {
    forall t :: Held(s, t) ==> Distinct(t) && IssuedBelow(PathSet(t), s.rt.nextSettingsId)
  }

  ghost predicate PendingNowhere(s: Sys) {
    forall c, t :: c in s.callers && s.callers[c].Allocated? && Held(s, t) ==> s.callers[c].path !in PathSet(t)
  }

  ghost predicate PendingDistinct(s: Sys) {
    forall c, d :: c in s.callers && d in s.callers && c != d && s.callers[c].Allocated? && s.callers[d].Allocated?
      ==> s.callers[c].path != s.callers[d].path
  }

  ghost predicate PendingIssued(s: Sys) {
    forall c :: c in s.callers && s.callers[c].Allocated? ==> IssuedBelow({s.callers[c].path}, s.rt.nextSettingsId)
  }

  ghost predicate IssuedOnce(s: Sys) {
    NoRepeats(s.hist.issued) && IssuedBelow((set p | p in s.hist.issued), s.rt.nextSettingsId)
  }

  ghost predicate PathsInv(s: Sys) {
    TablesInOrder(s) && PendingNowhere(s) && PendingDistinct(s) && PendingIssued(s) && IssuedOnce(s)
  }

  // ---------------------------------------------------------------- the start

  lemma {:induction false} FirstFreeIdIsFree(t: Table<Connection>)
    ensures IssuedBelow(PathSet(t), FirstFreeId(t)) && FirstFreeId(t) >= 1
  {
    if t != [] {
      var front, last := t[..|t| - 1], t[|t| - 1];
      FirstFreeIdIsFree(front);
      Unsnoc(t);
      forall id: nat | id >= FirstFreeId(t) ensures SettingsPath(id) !in PathSet(t) {
        DecimalIsElement(id);
        LastSegmentAfterSlash(SETTINGS, Decimal(id));
        ParseDecimal(id);
      }
    }
  }

  /** It is one more than the largest number that ends one of the paths, or 1. */
  lemma {:induction false} FirstFreeIdIsNext(t: Table<Connection>)
    ensures forall e :: e in t && ParseUsize(LastSegment(e.path)).Some? ==>
              ParseUsize(LastSegment(e.path)).value < FirstFreeId(t)
    ensures FirstFreeId(t) == 1
            || exists e :: e in t && ParseUsize(LastSegment(e.path)) == Some(FirstFreeId(t) - 1)
  {
    hide ParseUsize, LastSegment;
    if t != [] {
      assert t == t[..|t| - 1] + [t[|t| - 1]];
      FirstFreeIdIsNext(t[..|t| - 1]);
    }
  }

  lemma {:induction false} InitialPathsInv(s: Sys)
    requires Initial(s)
    ensures PathsInv(s)
  {
    FirstFreeIdIsFree(s.rt.connections);
  }

  // ---------------------------------------------------------------- the steps

  /** A step after which every held table is a distinct part of one held before. */
  ghost predicate OnlyShrinks(s: Sys, s': Sys) {
    && (forall t' :: Held(s', t') ==> Distinct(t') && exists t :: Held(s, t) && PathSet(t') <= PathSet(t))
    && (forall c :: c in s'.callers && s'.callers[c].Allocated? ==> c in s.callers && s.callers[c] == s'.callers[c])
    && s'.rt.nextSettingsId == s.rt.nextSettingsId
    && s'.hist.issued == s.hist.issued
  }

  lemma {:induction false} ShrinkKeepsPathsInv(s: Sys, s': Sys)
    requires PathsInv(s) && OnlyShrinks(s, s')
    ensures PathsInv(s')
  {
    forall t' | Held(s', t') ensures Distinct(t') && IssuedBelow(PathSet(t'), s'.rt.nextSettingsId) {
      var t :| Held(s, t) && PathSet(t') <= PathSet(t);
    }
    forall c, t' | c in s'.callers && s'.callers[c].Allocated? && Held(s', t')
      ensures s'.callers[c].path !in PathSet(t')
    {
      var t :| Held(s, t) && PathSet(t') <= PathSet(t);
    }
  }

  lemma {:induction false} NextPathKeepsPathsInv(s: Sys, c: nat)
    requires PathsInv(s) && At(s, c) == Idle
    ensures PathsInv(Step(s, NextPath(c)))
  {
    var s' := Step(s, NextPath(c));
    var id := s.rt.nextSettingsId;
    var path := SettingsPath(id);
    forall t | Held(s', t) ensures Held(s, t) && path !in PathSet(t) {
      if CarriedTable(s'.callers, t) {
        var d :| d in s'.callers && InFlight(s'.callers[d]) == Some(t);
        assert s.callers[d] == s'.callers[d];
      }
      assert Held(s, t);
    }
    forall later: nat | later >= id + 1 ensures SettingsPath(later) != path {
      if SettingsPath(later) == path {
        SettingsPathInjective(later, id);
      }
    }
    assert path !in s.hist.issued;
    forall d | d in s.callers && s.callers[d].Allocated? ensures s.callers[d].path != path {
      assert IssuedBelow({s.callers[d].path}, id);
    }
  }

  lemma {:induction false} InsertKeepsPathsInv(s: Sys, c: nat, value: Connection)
    requires PathsInv(s) && At(s, c).Allocated?
    ensures PathsInv(Step(s, Insert(c, value)))
  {
    var s' := Step(s, Insert(c, value));
    var path := s.callers[c].path;
    var live, e := s.rt.connections, Entry(path, value);
    Snoc(live, e);
    assert Held(s, live);
    forall t | Held(s', t) ensures t == live + [e] || Held(s, t) {
      if CarriedTable(s'.callers, t) {
        var d :| d in s'.callers && InFlight(s'.callers[d]) == Some(t);
        assert s.callers[d] == s'.callers[d];
      }
    }
    assert IssuedBelow({path}, s.rt.nextSettingsId);
    forall d, t | d in s'.callers && s'.callers[d].Allocated? && Held(s', t)
      ensures s'.callers[d].path !in PathSet(t)
    {
      assert s.callers[d] == s'.callers[d] && d != c;
    }
  }

  ghost predicate IsPartOfHeld(s: Sys, t: Table<Connection>) {
    Distinct(t) && exists h :: Held(s, h) && PathSet(t) <= PathSet(h)
  }

  /** A caller's move that changes no table and carries at most what it carried. */
  lemma {:induction false} MoveShrinks(s: Sys, s': Sys, c: nat)
    requires PathsInv(s)
    requires s'.rt.connections == s.rt.connections && s'.rt.nextSettingsId == s.rt.nextSettingsId
    requires s'.hist.issued == s.hist.issued
    requires OnlyMoves(s, s', c)
    requires c in s'.callers && !s'.callers[c].Allocated?
    requires InFlight(s'.callers[c]).Some? ==> IsPartOfHeld(s, InFlight(s'.callers[c]).value)
    requires forall t :: StoredTable(s'.rt.checkpoints, t) ==> Held(s, t)
    ensures PathsInv(s')
  {
    forall t' | Held(s', t') ensures Distinct(t') && exists t :: Held(s, t) && PathSet(t') <= PathSet(t) {
      if CarriedTable(s'.callers, t') {
        var d :| d in s'.callers && InFlight(s'.callers[d]) == Some(t');
        if d != c {
          assert CarriedTable(s.callers, t') by { assert d in s.callers && InFlight(s.callers[d]) == Some(t'); }
          assert Held(s, t');
        }
      } else {
        assert Held(s, t');
      }
    }
    ShrinkKeepsPathsInv(s, s');
  }

  /** A step that leaves callers alone and shrinks or keeps the live table. */
  lemma {:induction false} TableShrinks(s: Sys, s': Sys)
    requires PathsInv(s)
    requires s'.callers == s.callers && s'.rt.nextSettingsId == s.rt.nextSettingsId && s'.hist.issued == s.hist.issued
    requires Distinct(s'.rt.connections) && PathSet(s'.rt.connections) <= PathSet(s.rt.connections)
    requires forall t :: StoredTable(s'.rt.checkpoints, t) ==> StoredTable(s.rt.checkpoints, t)
    ensures PathsInv(s')
  {
    assert Held(s, s.rt.connections);
    forall t' | Held(s', t') ensures Distinct(t') && exists t :: Held(s, t) && PathSet(t') <= PathSet(t) {
      if t' != s'.rt.connections {
        assert Held(s, t');
      }
    }
    ShrinkKeepsPathsInv(s, s');
  }

  lemma {:induction false} UpdatedPaths(t: Table<Connection>, path: string, value: Connection)
    requires Distinct(t)
    ensures var i := Position(t, path);
            i < |t| ==> Distinct(t[i := Entry(path, value)]) && PathSet(t[i := Entry(path, value)]) == PathSet(t)
  {
    var i := Position(t, path);
    if i < |t| {
      UpsertFacts(t, Entry(path, value));
      assert t[i := Entry(path, value)] == Upsert(t, Entry(path, value));
      assert t[i] in t;
    }
  }

  lemma {:induction false} AdjustedTables(t: Table<Checkpoint>, cp: string, now: int, addTimeout: nat,
                                          held: Table<Connection>)
    requires StoredTable(AfterAdjust(t, cp, now, addTimeout), held)
    ensures StoredTable(t, held)
  {
    var u := AfterAdjust(t, cp, now, addTimeout);
    var e :| e in u && e.value.snapshot.connections == held;
    var k :| 0 <= k < |u| && u[k] == e;
    assert t[k] in t && t[k].value.snapshot.connections == held;
  }

  lemma {:induction false} CaptureKeepsPathsInv(s: Sys, c: nat, deviceList: seq<string>, timeout: nat)
    requires PathsInv(s) && At(s, c).Named?
    ensures PathsInv(StepCapture(s, c, At(s, c), deviceList, timeout))
  {
    assert Held(s, s.rt.connections);
    ConnectionsOnMembers(s.rt.connections, InterfacesOf(deviceList));
    MoveShrinks(s, StepCapture(s, c, At(s, c), deviceList, timeout), c);
  }

  lemma {:induction false} CaptureFilesKeepsPathsInv(s: Sys, c: nat, listing: Files)
    requires PathsInv(s) && At(s, c).Captured?
    ensures PathsInv(StepCaptureFiles(s, c, At(s, c), listing))
  {
    CarriedIsHeld(s, c);
    MoveShrinks(s, StepCaptureFiles(s, c, At(s, c), listing), c);
  }

  lemma {:induction false} RestoreFilesKeepsPathsInv(s: Sys, c: nat)
    requires PathsInv(s) && At(s, c).Won?
    ensures PathsInv(Step(s, RestoreFiles(c)))
  {
    CarriedIsHeld(s, c);
    MoveShrinks(s, Step(s, RestoreFiles(c)), c);
  }

  lemma {:induction false} CarriedIsHeld(s: Sys, c: nat)
    requires InFlight(At(s, c)).Some?
    ensures Held(s, InFlight(At(s, c)).value)
  {
    assert c in s.callers;
    assert CarriedTable(s.callers, InFlight(At(s, c)).value);
  }

  lemma {:induction false} HeldDistinct(s: Sys, t: Table<Connection>)
    requires PathsInv(s) && Held(s, t)
    ensures Distinct(t)
  {
  }

  lemma {:induction false} WinKeepsPathsInv(s: Sys, c: nat, cp: string)
    requires PathsInv(s) && MayWin(At(s, c), cp)
    ensures PathsInv(StepWin(s, c, cp))
  {
    hide PathsInv, Distinct, Without;
    var s' := StepWin(s, c, cp);
    WithoutMembers(s.rt.checkpoints, cp);
    forall t | StoredTable(s'.rt.checkpoints, t) ensures Held(s, t) {
      var e :| e in s'.rt.checkpoints && e.value.snapshot.connections == t;
      assert StoredTable(s.rt.checkpoints, t) by { assert e in s.rt.checkpoints; }
    }
    var found := Lookup(s.rt.checkpoints, cp);
    if found.Some? {
      assert StoredTable(s.rt.checkpoints, found.value.value.snapshot.connections);
      assert Held(s, found.value.value.snapshot.connections);
      HeldDistinct(s, found.value.value.snapshot.connections);
    }
    MoveShrinks(s, s', c);
  }

  lemma {:induction false} StoreKeepsPathsInv(s: Sys, c: nat)
    requires PathsInv(s) && At(s, c).Filed?
    ensures PathsInv(StepStore(s, c, At(s, c).cp, At(s, c).record))
  {
    hide PathsInv, CheckpointPath, Distinct;
    var s' := StepStore(s, c, At(s, c).cp, At(s, c).record);
    CarriedIsHeld(s, c);
    HeldDistinct(s, InFlight(At(s, c)).value);
    forall t | StoredTable(s'.rt.checkpoints, t) ensures Held(s, t) {
      var e :| e in s'.rt.checkpoints && e.value.snapshot.connections == t;
      if e in s.rt.checkpoints {
        assert StoredTable(s.rt.checkpoints, t);
      }
    }
    MoveShrinks(s, s', c);
  }

  lemma {:induction false} RestoreKeepsPathsInv(s: Sys, c: nat)
    requires PathsInv(s) && At(s, c).FilesBack?
    ensures PathsInv(Step(s, RestoreState(c)))
  {
    var s' := Step(s, RestoreState(c));
    CarriedIsHeld(s, c);
    forall t' | Held(s', t') ensures Held(s, t') {
      if CarriedTable(s'.callers, t') {
        var d :| d in s'.callers && InFlight(s'.callers[d]) == Some(t');
        assert d in s.callers && InFlight(s.callers[d]) == Some(t');
      }
    }
    ShrinkKeepsPathsInv(s, s');
  }

  lemma {:induction false} UpdateKeepsPathsInv(s: Sys, path: string, value: Connection)
    requires PathsInv(s)
    ensures PathsInv(Step(s, Update(path, value))) && PathsInv(Step(s, Remove(path)))
  {
    assert Held(s, s.rt.connections);
    UpdatedPaths(s.rt.connections, path, value);
    WithoutFacts(s.rt.connections, path);
    TableShrinks(s, Step(s, Update(path, value)));
    TableShrinks(s, Step(s, Remove(path)));
  }

  lemma {:induction false} AdjustKeepsPathsInv(s: Sys, cp: string, addTimeout: nat)
    requires PathsInv(s)
    ensures PathsInv(Step(s, Adjust(cp, addTimeout)))
  {
    var s' := Step(s, Adjust(cp, addTimeout));
    assert Held(s, s.rt.connections);
    forall t | StoredTable(s'.rt.checkpoints, t) ensures StoredTable(s.rt.checkpoints, t) {
      AdjustedTables(s.rt.checkpoints, cp, s.now, addTimeout, t);
    }
    TableShrinks(s, s');
  }

  lemma {:induction false} DestroyKeepsPathsInv(s: Sys, cp: string)
    requires PathsInv(s)
    ensures PathsInv(StepDestroy(s, cp))
  {
    var s' := StepDestroy(s, cp);
    assert Held(s, s.rt.connections);
    WithoutMembers(s.rt.checkpoints, cp);
    forall t | StoredTable(s'.rt.checkpoints, t) ensures StoredTable(s.rt.checkpoints, t) {
      var e :| e in s'.rt.checkpoints && e.value.snapshot.connections == t;
      assert e in s.rt.checkpoints;
    }
    TableShrinks(s, s');
  }

  lemma {:induction false} QuietMove(s: Sys, a: Action)
    requires (a.NameCheckpoint? || a.Tick? || a.Start? || a.GiveUp?) && Step(s, a) != s
    ensures var s' := Step(s, a);
            && s'.rt.connections == s.rt.connections && s'.rt.checkpoints == s.rt.checkpoints
            && s'.rt.nextSettingsId == s.rt.nextSettingsId && s'.hist.issued == s.hist.issued
            && s'.callers == s.callers[a.c := At(s', a.c)] && a.c in s'.callers
            && !At(s', a.c).Allocated? && InFlight(At(s', a.c)).None?
  {
    hide CheckpointPath, Lookup, RollbackTimeout;
  }

  /** Caller moves that touch no table. */
  lemma {:induction false} MoveKeepsPathsInv(s: Sys, a: Action)
    requires PathsInv(s) && (a.NameCheckpoint? || a.Tick? || a.Start? || a.GiveUp?)
    ensures PathsInv(Step(s, a))
  {
    if Step(s, a) != s {
      QuietMove(s, a);
      hide PathsInv, Step;
      MoveShrinks(s, Step(s, a), a.c);
    }
  }

  /** Actions on the rest of the state. */
  lemma {:induction false} PlainStepKeepsPathsInv(s: Sys, a: Action)
    requires PathsInv(s)
    requires a.SetHost? || a.SetManaged? || a.SetNetworking? || a.SetAsleep? || a.PushActive? || a.DropActive?
          || a.EditTables? || a.WriteFile? || a.DeleteFile? || a.Pass?
    ensures PathsInv(Step(s, a))
  {
    assert Held(s, s.rt.connections);
    TableShrinks(s, Step(s, a));
  }

  lemma {:induction false} StepKeepsPathsInv(s: Sys, a: Action)
    requires PathsInv(s)
    ensures PathsInv(Step(s, a))
  {
    hide PathsInv, Step;
    if Step(s, a) != s {
      StepTaken(s, a);
      match a
      case NextPath(c) => NextPathKeepsPathsInv(s, c);
      case Insert(c, value) => InsertKeepsPathsInv(s, c, value);
      case Update(path, value) => UpdateKeepsPathsInv(s, path, value);
      case Remove(path) => UpdateKeepsPathsInv(s, path, Connection("", "", User, map[], false, ""));
      case Capture(c, deviceList, timeout) => CaptureKeepsPathsInv(s, c, deviceList, timeout);
      case CaptureFiles(c, listing) => CaptureFilesKeepsPathsInv(s, c, listing);
      case Store(c) => StoreKeepsPathsInv(s, c);
      case Adjust(cp, addTimeout) => AdjustKeepsPathsInv(s, cp, addTimeout);
      case Destroy(cp) => DestroyKeepsPathsInv(s, cp);
      case Win(c, cp) => WinKeepsPathsInv(s, c, cp);
      case RestoreFiles(c) => RestoreFilesKeepsPathsInv(s, c);
      case RestoreState(c) => RestoreKeepsPathsInv(s, c);
      case NameCheckpoint(_) => MoveKeepsPathsInv(s, a);
      case Tick(_) => MoveKeepsPathsInv(s, a);
      case Start(_) => MoveKeepsPathsInv(s, a);
      case GiveUp(_) => MoveKeepsPathsInv(s, a);
      case _ => PlainStepKeepsPathsInv(s, a);
    }
  }

  lemma {:induction false} RunKeepsPathsInv(s: Sys, actions: seq<Action>)
    requires PathsInv(s)
    ensures PathsInv(Run(s, actions))
  {
    if actions != [] {
      RunKeepsPathsInv(s, actions[..|actions| - 1]);
      StepKeepsPathsInv(Run(s, actions[..|actions| - 1]), actions[|actions| - 1]);
    }
  }

  // ---------------------------------------------------------------- the theorems

  /** Under every interleaving: live connections have pairwise distinct paths, settings paths
      are issued once each, and a path that was issued and not yet inserted occurs in no live
      record and in no stored or in-flight snapshot. */
  lemma {:induction false} PathsUnderInterleaving(s: Sys, actions: seq<Action>)
    requires Initial(s)
    ensures var r := Run(s, actions);
            && Distinct(r.rt.connections)
            && NoRepeats(r.hist.issued)
            && (forall c, t :: c in r.callers && r.callers[c].Allocated? && Held(r, t)
                 ==> r.callers[c].path !in PathSet(t))
            && PendingDistinct(r)
  {
    InitialPathsInv(s);
    RunKeepsPathsInv(s, actions);
    var r := Run(s, actions);
    assert Held(r, r.rt.connections);
  }

  /** A path is new in every respect at the moment it is issued. */
  lemma {:induction false} IssuedPathIsFresh(s: Sys, actions: seq<Action>, c: nat)
    requires Initial(s) && At(Run(s, actions), c) == Idle
    ensures var r, r' := Run(s, actions), Run(s, actions + [NextPath(c)]);
            && At(r', c).Allocated?
            && At(r', c).path !in r.hist.issued
            && (forall t :: Held(r, t) ==> At(r', c).path !in PathSet(t))
            && (forall d :: d in r.callers && r.callers[d].Allocated? ==> r.callers[d].path != At(r', c).path)
  {
    InitialPathsInv(s);
    RunKeepsPathsInv(s, actions);
    assert (actions + [NextPath(c)])[..|actions|] == actions;
    var r := Run(s, actions);
    forall d | d in r.callers && r.callers[d].Allocated?
      ensures r.callers[d].path != SettingsPath(r.rt.nextSettingsId)
    {
      assert IssuedBelow({r.callers[d].path}, r.rt.nextSettingsId);
    }
  }
}
