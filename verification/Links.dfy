/** Bringing links up and down: activation, deactivation, clearing, and what a rollback does. */
module Links {
  import opened Text
  import opened Tables
  import opened RuntimeState
  import opened RuntimeStore

  datatype LinkCall = Up(name: string) | Down(name: string)

  /** The interfaces that are up and the calls made so far, the failing ones included. */
  datatype LinkState = LinkState(up: set<string>, calls: seq<LinkCall>)

  /** The interfaces that cannot be brought up, and those that cannot be brought down. */
  datatype Broken = Broken(up: set<string>, down: set<string>)

  predicate Fails(call: LinkCall, broken: Broken) {
    match call
    case Up(name) => name in broken.up
    case Down(name) => name in broken.down
  }

  function AfterCall(s: LinkState, call: LinkCall, broken: Broken): LinkState {
    var calls := s.calls + [call];
    if Fails(call, broken) then LinkState(s.up, calls)
    else match call
      case Up(name) => LinkState(s.up + {name}, calls)
      case Down(name) => LinkState(s.up - {name}, calls)
  }

  function AfterCalls(s: LinkState, calls: seq<LinkCall>, broken: Broken): LinkState {
    if calls == [] then s else AfterCall(AfterCalls(s, calls[..|calls| - 1], broken), calls[|calls| - 1], broken)
  }

  lemma {:induction false} CallsInTwoParts(s: LinkState, calls: seq<LinkCall>, more: seq<LinkCall>, broken: Broken)
    ensures AfterCalls(s, calls + more, broken) == AfterCalls(AfterCalls(s, calls, broken), more, broken)
  {
    if more == [] {
      assert calls + more == calls;
    } else {
      assert (calls + more)[..|calls + more| - 1] == calls + more[..|more| - 1];
      CallsInTwoParts(s, calls, more[..|more| - 1], broken);
    }
  }

  lemma {:induction false} OneCall(s: LinkState, call: LinkCall, broken: Broken)
    ensures AfterCalls(s, [], broken) == s && AfterCalls(s, [call], broken) == AfterCall(s, call, broken)
  {
    hide AfterCall;
    assert [call][..0] == [];
  }

  ghost function Names(calls: seq<LinkCall>): set<string> {
    set c | c in calls :: c.name
  }

  lemma {:induction false} NamesSnoc(calls: seq<LinkCall>)
    requires calls != []
    ensures Names(calls) == Names(calls[..|calls| - 1]) + {calls[|calls| - 1].name}
    ensures forall c :: c in calls <==> c in calls[..|calls| - 1] || c == calls[|calls| - 1]
  {
    assert calls == calls[..|calls| - 1] + [calls[|calls| - 1]];
  }

  lemma {:induction false} AllDown(s: LinkState, calls: seq<LinkCall>, broken: Broken)
    requires forall c :: c in calls ==> c.Down?
    ensures AfterCalls(s, calls, broken) == LinkState(s.up - (Names(calls) - broken.down), s.calls + calls)
  {
    if calls == [] {
      assert s.calls + calls == s.calls;
    } else {
      NamesSnoc(calls);
      AllDown(s, calls[..|calls| - 1], broken);
      assert s.calls + calls == s.calls + calls[..|calls| - 1] + [calls[|calls| - 1]];
      assert calls[|calls| - 1] in calls;
    }
  }

  lemma {:induction false} AllUp(s: LinkState, calls: seq<LinkCall>, broken: Broken)
    requires forall c :: c in calls ==> c.Up?
    ensures AfterCalls(s, calls, broken) == LinkState(s.up + (Names(calls) - broken.up), s.calls + calls)
  {
    if calls == [] {
      assert s.calls + calls == s.calls;
    } else {
      NamesSnoc(calls);
      AllUp(s, calls[..|calls| - 1], broken);
      assert s.calls + calls == s.calls + calls[..|calls| - 1] + [calls[|calls| - 1]];
      assert calls[|calls| - 1] in calls;
    }
  }

  /** rtnetlink and iwd, as far as they bring interfaces up and down. */
  class LinkControl {
    var up: set<string>
    var calls: seq<LinkCall>
    const broken: Broken

    ghost function Now(): LinkState
      reads this
    {
      LinkState(up, calls)
    }

    constructor (up: set<string>, broken: Broken)
      ensures Now() == LinkState(up, []) && this.broken == broken
    {
      this.up, this.calls, this.broken := up, [], broken;
    }

    method Call(call: LinkCall) returns (ok: bool)
      modifies this
      ensures ok == !Fails(call, broken)
      ensures Now() == AfterCall(old(Now()), call, broken)
    {
      calls := calls + [call];
      ok := !Fails(call, broken);
      if ok {
        match call {
          case Up(name) => up := up + {name};
          case Down(name) => up := up - {name};
        }
      }
    }
  }

  // ------------------------------------------------------------------ interfaces

  /** The interface of an active connection: the end of its first device path. */
  function FirstInterface(a: ActiveConnection): Option<string> {
    if a.devices == [] then None else Some(LastSegment(a.devices[0]))
  }

  /** `unwrap_or_default` on it. */
  function InterfaceOrEmpty(a: ActiveConnection): string {
    match FirstInterface(a) case Some(name) => name case None => ""
  }

  predicate Uses(t: Table<ActiveConnection>, name: string) {
    exists i :: 0 <= i < |t| && FirstInterface(t[i].value) == Some(name)
  }

  // ------------------------------------------------------------------ clearing

  /** The records of other types, in their order. */
  function Others(t: Table<ActiveConnection>, types: seq<string>): Table<ActiveConnection> {
    if t == [] then []
    else
      var rest := Others(t[..|t| - 1], types);
      if t[|t| - 1].value.connectionType in types then rest else rest + [t[|t| - 1]]
  }

  predicate IsBroughtDown(a: ActiveConnection, types: seq<string>) {
    a.connectionType in types && a.connectionType in {WIFI, ETHERNET} && FirstInterface(a).Some?
  }

  /** The calls for the records of these types, in their order. */
  function Downs(t: Table<ActiveConnection>, types: seq<string>): seq<LinkCall> {
    if t == [] then []
    else
      var rest := Downs(t[..|t| - 1], types);
      rest + DownOf(t[|t| - 1].value, types)
  }

  function DownOf(a: ActiveConnection, types: seq<string>): seq<LinkCall> {
    if IsBroughtDown(a, types) then [Down(FirstInterface(a).value)] else []
  }

  /** The interfaces of the records of these types. */
  function ClearedInterfaces(t: Table<ActiveConnection>, types: seq<string>): seq<string> {
    if t == [] then []
    else
      var rest := ClearedInterfaces(t[..|t| - 1], types);
      rest + ClearedInterface(t[|t| - 1].value, types)
  }

  function ClearedInterface(a: ActiveConnection, types: seq<string>): seq<string> {
    if a.connectionType in types && FirstInterface(a).Some? then [FirstInterface(a).value] else []
  }

  predicate Sticks(a: ActiveConnection, types: seq<string>, broken: Broken) {
    IsBroughtDown(a, types) && FirstInterface(a).value in broken.down
  }

  /** The first record whose link cannot be brought down, or the length. */
  function FirstStuck(t: Table<ActiveConnection>, types: seq<string>, broken: Broken): (i: nat)
    ensures i <= |t|
    ensures i < |t| ==> Sticks(t[i].value, types, broken)
    ensures forall j :: 0 <= j < i ==> !Sticks(t[j].value, types, broken)
  {
    if t == [] || Sticks(t[0].value, types, broken) then 0
    else
      var i := FirstStuck(t[1..], types, broken);
      assert forall j :: 1 <= j < |t| ==> t[j] == t[1..][j - 1];
      1 + i
  }

  lemma {:induction false} OthersArePart(t: Table<ActiveConnection>, types: seq<string>)
    ensures forall e :: e in Others(t, types) <==> e in t && e.value.connectionType !in types
  {
    if t != [] {
      assert t == t[..|t| - 1] + [t[|t| - 1]];
      OthersArePart(t[..|t| - 1], types);
    }
  }

  /** While clearing stands at `i`, the record there is found by its path. */
  lemma {:induction false} ClearAt(t: Table<ActiveConnection>, types: seq<string>, i: nat)
    requires Distinct(t) && i < |t|
    ensures var before := Others(t[..i], types);
            Position(before + t[i..], t[i].path) == |before| && Lookup(before + t[i..], t[i].path) == Some(t[i])
  {
    var before := Others(t[..i], types);
    var now := before + t[i..];
    OthersArePart(t[..i], types);
    hide Others;
    forall k | 0 <= k < |before| ensures now[k].path != t[i].path {
      assert before[k] in before;
      var j :| 0 <= j < i && t[j] == before[k];
    }
    assert now[|before|] == t[i] && now[|before|] in now;
  }

  /** Clearing the record at `i`, or leaving it, moves the place on by one. */
  lemma {:induction false} ClearStep(t: Table<ActiveConnection>, types: seq<string>, i: nat)
    requires Distinct(t) && i < |t|
    ensures var now := Others(t[..i], types) + t[i..];
            && Lookup(now, t[i].path) == Some(t[i])
            && Others(t[..i + 1], types) + t[i + 1..]
               == if t[i].value.connectionType in types then Without(now, t[i].path) else now
  {
    ClearAt(t, types, i);
    OthersStep(t, types, i);
    hide Others, Without, Lookup, Position;
    var before, rest := Others(t[..i], types), t[i..];
    Uncons(t, i);
    if t[i].value.connectionType in types {
      WithoutMiddle(before, rest);
    } else {
      Reassociate(before, t[i], t[i + 1..]);
    }
  }

  lemma {:induction false} Uncons(t: Table<ActiveConnection>, i: nat)
    requires i < |t|
    ensures t[i..] == [t[i]] + t[i + 1..] && t[i..][0] == t[i] && t[i..][1..] == t[i + 1..]
  {
  }

  lemma {:induction false} Reassociate(before: Table<ActiveConnection>, e: Entry<ActiveConnection>,
                                       after: Table<ActiveConnection>)
    ensures before + [e] + after == before + ([e] + after)
  {
  }

  lemma {:induction false} OthersStep(t: Table<ActiveConnection>, types: seq<string>, i: nat)
    requires i < |t|
    ensures Others(t[..i + 1], types)
         == if t[i].value.connectionType in types then Others(t[..i], types) else Others(t[..i], types) + [t[i]]
  {
    assert t[..i + 1][..i] == t[..i];
  }

  lemma {:induction false} WithoutMiddle(before: Table<ActiveConnection>, rest: Table<ActiveConnection>)
    requires rest != [] && Position(before + rest, rest[0].path) == |before|
    ensures Without(before + rest, rest[0].path) == before + rest[1..]
  {
    var now := before + rest;
    assert now[..|before|] == before && now[|before| + 1..] == rest[1..];
  }

  /** One record: its link goes down first, and if that works the record goes. */
  method ClearRecord(rt: Runtime, links: LinkControl, record: Entry<ActiveConnection>, types: seq<string>)
    returns (ok: bool, cleared: seq<string>)
    modifies rt, links
    ensures ok == !Sticks(record.value, types, links.broken)
    ensures links.Now() == AfterCalls(old(links.Now()), DownOf(record.value, types), links.broken)
    ensures cleared == ClearedInterface(record.value, types)
    ensures rt.Contents() == if ok && record.value.connectionType in types
                             then old(rt.Contents()).(
                                    activeConnections := Without(old(rt.activeConnections), record.path))
                             else old(rt.Contents())
  {
    hide AfterCalls, AfterCall, Without;
    ok, cleared := true, [];
    var active := record.value;
    OneCall(links.Now(), Down(InterfaceOrEmpty(active)), links.broken);
    if active.connectionType !in types {
      return;
    }
    var interfaceName := FirstInterface(active);
    if interfaceName.Some? {
      cleared := [interfaceName.value];
      if active.connectionType in {WIFI, ETHERNET} {
        ok := links.Call(Down(interfaceName.value));
      }
    }
    if ok {
      var _ := rt.RemoveActiveConnection(record.path);
    }
  }

  lemma {:induction false} ClearLists(s: LinkState, t: Table<ActiveConnection>, types: seq<string>, broken: Broken,
                                      i: nat)
    requires i < |t|
    ensures AfterCalls(s, Downs(t[..i + 1], types), broken)
         == AfterCalls(AfterCalls(s, Downs(t[..i], types), broken), DownOf(t[i].value, types), broken)
    ensures ClearedInterfaces(t[..i + 1], types)
         == ClearedInterfaces(t[..i], types) + ClearedInterface(t[i].value, types)
  {
    assert t[..i + 1][..i] == t[..i];
    CallsInTwoParts(s, Downs(t[..i], types), DownOf(t[i].value, types), broken);
  }

  /** Walks the active connections: those of these types go, each after its link; the walk stops
      at the first link that cannot be brought down and leaves that record and all after it. */
  method ClearActiveConnectionsOfTypes(rt: Runtime, links: LinkControl,
                                       types: seq<string>) returns (r: Result<seq<string>>)
    requires Distinct(rt.activeConnections)
    modifies rt, links
    ensures var t := old(rt.activeConnections);
            var k := FirstStuck(t, types, links.broken);
            && rt.Contents() == old(rt.Contents()).(activeConnections := Others(t[..k], types) + t[k..])
            && (r.Ok? <==> k == |t|)
            && (r.Ok? ==> r.value == ClearedInterfaces(t, types)
                          && links.Now() == AfterCalls(old(links.Now()), Downs(t, types), links.broken))
            && (r.Err? ==> links.Now() == AfterCalls(old(links.Now()), Downs(t[..k + 1], types), links.broken))
  {
    hide Downs, ClearedInterfaces, Others, AfterCalls, IsBroughtDown, DownOf, ClearedInterface, Sticks;
    var interfaces: seq<string> := [];
    ghost var t := rt.activeConnections;
    ghost var start := links.Now();
    var activePaths := Paths(rt.activeConnections);
    ClearNothing(start, t, types, links.broken);
    for i := 0 to |activePaths|
      invariant i <= FirstStuck(t, types, links.broken)
      invariant rt.Contents() == old(rt.Contents()).(activeConnections := Others(t[..i], types) + t[i..])
      invariant interfaces == ClearedInterfaces(t[..i], types)
      invariant links.Now() == AfterCalls(start, Downs(t[..i], types), links.broken)
    {
      assert rt.activeConnections == rt.Contents().activeConnections;
      ClearStep(t, types, i);
      ClearLists(start, t, types, links.broken, i);
      var record := Lookup(rt.activeConnections, activePaths[i]);
      var ok, cleared := ClearRecord(rt, links, record.value, types);
      if !ok {
        assert FirstStuck(t, types, links.broken) == i;
        return Err("the link cannot be brought down");
      }
      interfaces := interfaces + cleared;
    }
    assert t[..|t|] == t && t[|t|..] == [];
    r := Ok(interfaces);
  }

  lemma {:induction false} ClearNothing(s: LinkState, t: Table<ActiveConnection>, types: seq<string>, broken: Broken)
    ensures Others(t[..0], types) + t[0..] == t && ClearedInterfaces(t[..0], types) == []
    ensures AfterCalls(s, Downs(t[..0], types), broken) == s
  {
  }

  lemma {:induction false} DownsMembers(t: Table<ActiveConnection>, types: seq<string>)
    ensures forall c :: c in Downs(t, types) <==>
              exists e :: e in t && IsBroughtDown(e.value, types) && c == Down(FirstInterface(e.value).value)
  {
    if t != [] {
      assert t == t[..|t| - 1] + [t[|t| - 1]];
      DownsMembers(t[..|t| - 1], types);
    }
  }

  /** The record is one to clear, its first device is on this interface, and clearing it takes the link down. */
  predicate TakesDown(a: ActiveConnection, types: seq<string>, name: string) {
    && a.connectionType in types
    && (a.connectionType == "802-11-wireless" || a.connectionType == "802-3-ethernet")
    && a.devices != [] && LastSegment(a.devices[0]) == name
  }

  lemma {:induction false} BroughtDownIff(a: ActiveConnection, types: seq<string>, name: string)
    ensures TakesDown(a, types, name) <==> IsBroughtDown(a, types) && FirstInterface(a) == Some(name)
  {
    hide LastSegment;
  }

  /** Clearing stops exactly if some record is stuck, and then at the first one. */
  lemma {:induction false} StopsAtFirstStuck(t: Table<ActiveConnection>, types: seq<string>, broken: Broken)
    ensures var k := FirstStuck(t, types, broken);
            && (k < |t| ==> exists name :: TakesDown(t[k].value, types, name) && name in broken.down)
            && (forall i, name :: 0 <= i < k && TakesDown(t[i].value, types, name) ==> name !in broken.down)
  {
    var k := FirstStuck(t, types, broken);
    if k < |t| {
      assert Sticks(t[k].value, types, broken);
      BroughtDownIff(t[k].value, types, FirstInterface(t[k].value).value);
    }
    hide IsBroughtDown, TakesDown, FirstInterface;
    forall i, name | 0 <= i < k && TakesDown(t[i].value, types, name) ensures name !in broken.down {
      BroughtDownIff(t[i].value, types, name);
      assert !Sticks(t[i].value, types, broken);
    }
  }

  /** When nothing is stuck, the links of the records that take one down are down, and no other link has
      changed. */
  lemma {:induction false} ClearedLinksAreDown(s: LinkState, t: Table<ActiveConnection>, types: seq<string>,
                                               broken: Broken)
    requires forall e, name :: e in t && TakesDown(e.value, types, name) ==> name !in broken.down
    ensures FirstStuck(t, types, broken) == |t|
    ensures forall name :: name in AfterCalls(s, Downs(t, types), broken).up <==>
              name in s.up && !(exists e :: e in t && TakesDown(e.value, types, name))
  {
    DownsMembers(t, types);
    StopsAtFirstStuck(t, types, broken);
    assert forall i :: 0 <= i < |t| ==> t[i] in t;
    hide Downs, IsBroughtDown, FirstInterface, TakesDown, FirstStuck;
    var calls := Downs(t, types);
    AllDown(s, calls, broken);
    forall name
      ensures name in Names(calls) - broken.down <==> exists e :: e in t && TakesDown(e.value, types, name)
    {
      DownNamed(t, types, name);
      assert name in Names(calls) <==> Down(name) in calls;
    }
  }

  lemma {:induction false} DownNamed(t: Table<ActiveConnection>, types: seq<string>, name: string)
    ensures Down(name) in Downs(t, types) <==> exists e :: e in t && TakesDown(e.value, types, name)
  {
    DownsMembers(t, types);
    forall a ensures TakesDown(a, types, name) <==> IsBroughtDown(a, types) && FirstInterface(a) == Some(name) {
      BroughtDownIff(a, types, name);
    }
    hide Downs, TakesDown, IsBroughtDown, FirstInterface;
  }

  predicate IsReported(a: ActiveConnection, types: seq<string>, name: string) {
    a.connectionType in types && a.devices != [] && LastSegment(a.devices[0]) == name
  }

  /** Clearing keeps exactly the records of other types, in their order, and reports the interface of every
      record of these types that has one. */
  lemma {:induction false} ClearingKeepsOthers(t: Table<ActiveConnection>, types: seq<string>)
    requires Distinct(t)
    ensures forall e :: e in Others(t, types) <==> e in t && e.value.connectionType !in types
    ensures KeepsOrder(Others(t, types), t)
    ensures forall name :: name in ClearedInterfaces(t, types) <==>
              exists e :: e in t && IsReported(e.value, types, name)
  {
    if t != [] {
      var front, last := t[..|t| - 1], t[|t| - 1];
      Unsnoc(t);
      ClearingKeepsOthers(front, types);
      KeepsOrderSnoc(Others(front, types), front, last);
      assert forall name :: name in ClearedInterface(last.value, types) <==> IsReported(last.value, types, name);
      hide KeepsOrder, Distinct, IsReported, ClearedInterface, PathSet;
    }
  }
}
