/** Ordered tables keyed by object path, the object-manager signals that go with
    them, and the three loops a sync runs over a table. */
module Tables {
  import opened Text

  datatype Entry<+V> = Entry(path: string, value: V)

  type Table<V> = seq<Entry<V>>

  ghost function PathSet<V>(t: Table<V>): set<string> {
    set e | e in t :: e.path
  }

  function Paths<V>(t: Table<V>): seq<string> {
    seq(|t|, i requires 0 <= i < |t| => t[i].path)
  }

  ghost predicate Distinct<V>(t: Table<V>) {
    forall i, j :: 0 <= i < j < |t| ==> t[i].path != t[j].path
  }

  /** The first position with this path, or the length of the table. */
  function Position<V>(t: Table<V>, path: string): (i: nat)
    ensures i <= |t|
    ensures i < |t| ==> t[i].path == path
    ensures forall j :: 0 <= j < i ==> t[j].path != path
    ensures i < |t| <==> path in PathSet(t)
  {
    if t == [] then 0
    else if t[0].path == path then assert t[0] in t; 0
    else
      var i := Position(t[1..], path);
      assert forall j :: 1 <= j < |t| ==> t[j] == t[1..][j - 1];
      assert t == [t[0]] + t[1..];
      1 + i
  }

  function Lookup<V>(t: Table<V>, path: string): (r: Option<Entry<V>>)
    ensures r.Some? <==> path in PathSet(t)
    ensures r.Some? ==> r.value in t && r.value.path == path
  {
    var i := Position(t, path);
    if i < |t| then Some(t[i]) else None
  }

  /** `remove(position)` of the first entry with this path. */
  function Without<V>(t: Table<V>, path: string): Table<V> {
    var i := Position(t, path);
    if i < |t| then t[..i] + t[i + 1..] else t
  }

  /** Replace the first entry with the same path, or append. */
  function Upsert<V>(t: Table<V>, e: Entry<V>): Table<V> {
    var i := Position(t, e.path);
    if i < |t| then t[i := e] else t + [e]
  }

  /** `retain(|existing| existing.path is not dead)` */
  function Except<V>(t: Table<V>, dead: set<string>): Table<V> {
    if t == [] then []
    else
      var rest := Except(t[..|t| - 1], dead);
      if t[|t| - 1].path in dead then rest else rest + [t[|t| - 1]]
  }

  /** Drop every entry with the same path, then append. */
  function Repush<V>(t: Table<V>, e: Entry<V>): Table<V> {
    Except(t, {e.path}) + [e]
  }

  // -------------------------------------------------------------- table facts

  lemma {:induction false} DistinctLookup<V>(t: Table<V>, i: nat)
    requires Distinct(t) && i < |t|
    ensures Position(t, t[i].path) == i && Lookup(t, t[i].path) == Some(t[i])
  {
    assert t[i] in t;
  }

  lemma {:induction false} Snoc<V>(t: Table<V>, e: Entry<V>)
    ensures PathSet(t + [e]) == PathSet(t) + {e.path}
    ensures Distinct(t + [e]) <==> Distinct(t) && e.path !in PathSet(t)
  {
    var u := t + [e];
    assert forall k :: k in u <==> k in t || k == e;
    if Distinct(u) {
      forall k | k in t ensures k.path != e.path {
        var i :| 0 <= i < |t| && t[i] == k;
        assert u[i].path != u[|t|].path;
      }
      forall i, j | 0 <= i < j < |t| ensures t[i].path != t[j].path {
        assert u[i].path != u[j].path;
      }
    }
    if Distinct(t) && e.path !in PathSet(t) {
      forall i, j | 0 <= i < j < |u| ensures u[i].path != u[j].path {
        assert u[i] in t;
      }
    }
  }

  lemma {:induction false} Unsnoc<V>(t: Table<V>)
    requires t != []
    ensures var front, last := t[..|t| - 1], t[|t| - 1];
            && t == front + [last]
            && PathSet(t) == PathSet(front) + {last.path}
            && (Distinct(t) <==> Distinct(front) && last.path !in PathSet(front))
  {
    assert t == t[..|t| - 1] + [t[|t| - 1]];
    Snoc(t[..|t| - 1], t[|t| - 1]);
  }

  lemma {:induction false} ExceptPaths<V>(t: Table<V>, dead: set<string>)
    ensures PathSet(Except(t, dead)) == PathSet(t) - dead
    ensures Distinct(t) ==> Distinct(Except(t, dead))
  {
    if t != [] {
      var front, last := t[..|t| - 1], t[|t| - 1];
      Unsnoc(t);
      ExceptPaths(front, dead);
      Snoc(Except(front, dead), last);
    }
  }

  lemma {:induction false} ExceptMembers<V>(t: Table<V>, dead: set<string>)
    ensures forall e :: e in Except(t, dead) <==> e in t && e.path !in dead
    ensures PathSet(Except(t, dead)) == PathSet(t) - dead
    ensures Distinct(t) ==> Distinct(Except(t, dead))
  {
    ExceptPaths(t, dead);
    if t != [] {
      var front, last := t[..|t| - 1], t[|t| - 1];
      ExceptMembers(front, dead);
      assert t == front + [last];
    }
  }

  lemma {:induction false} ExceptNone<V>(t: Table<V>, dead: set<string>)
    requires PathSet(t) !! dead
    ensures Except(t, dead) == t
  {
    if t != [] {
      var front, last := t[..|t| - 1], t[|t| - 1];
      assert t == front + [last] && last in t;
      assert forall e :: e in front ==> e in t;
      ExceptNone(front, dead);
    }
  }

  lemma {:induction false} ExceptAll<V>(t: Table<V>, dead: set<string>)
    requires PathSet(t) <= dead
    ensures Except(t, dead) == []
  {
    if t != [] {
      assert t[|t| - 1] in t;
      assert forall e :: e in t[..|t| - 1] ==> e in t;
      ExceptAll(t[..|t| - 1], dead);
    }
  }

  lemma {:induction false} ExceptTwice<V>(t: Table<V>, a: set<string>, b: set<string>)
    ensures Except(Except(t, a), b) == Except(t, a + b)
  {
    if t != [] {
      var front, last := t[..|t| - 1], t[|t| - 1];
      ExceptTwice(front, a, b);
      var inner := Except(front, a);
      if last.path !in a {
        assert (inner + [last])[..|inner|] == inner;
      }
    }
  }

  lemma {:induction false} ExceptConcat<V>(s: Table<V>, t: Table<V>, dead: set<string>)
    ensures Except(s + t, dead) == Except(s, dead) + Except(t, dead)
  {
    if t == [] {
      assert s + t == s;
    } else {
      var front, last := t[..|t| - 1], t[|t| - 1];
      assert (s + t)[..|s + t| - 1] == s + front;
      ExceptConcat(s, front, dead);
    }
  }

  lemma {:induction false} ExceptMiddle<V>(before: Table<V>, e: Entry<V>, after: Table<V>)
    requires e.path !in PathSet(before) && e.path !in PathSet(after)
    ensures Except(before + [e] + after, {e.path}) == before + after
  {
    ExceptConcat(before + [e], after, {e.path});
    ExceptNone(after, {e.path});
    ExceptNone(before, {e.path});
    assert (before + [e])[..|before|] == before;
  }

  lemma {:induction false} WithoutIsExcept<V>(t: Table<V>, path: string)
    requires Distinct(t)
    ensures Without(t, path) == Except(t, {path})
  {
    var i := Position(t, path);
    if i < |t| {
      var before, after := t[..i], t[i + 1..];
      forall e | e in after ensures e.path != path {
        var k :| 0 <= k < |after| && after[k] == e;
        assert t[i].path != t[i + 1 + k].path;
      }
      assert path !in PathSet(before);
      assert t == before + [t[i]] + after;
      ExceptMiddle(before, t[i], after);
    } else {
      ExceptNone(t, {path});
    }
  }

  lemma {:induction false} UpsertFacts<V>(t: Table<V>, e: Entry<V>)
    requires Distinct(t)
    ensures var u := Upsert(t, e);
            && Distinct(u) && PathSet(u) == PathSet(t) + {e.path}
            && Lookup(u, e.path) == Some(e)
            && (forall p :: p != e.path ==> Lookup(u, p) == Lookup(t, p))
  {
    var i, u := Position(t, e.path), Upsert(t, e);
    UpsertPaths(t, e);
    DistinctLookup(u, i);
    hide PathSet;
    forall p | p != e.path ensures Lookup(u, p) == Lookup(t, p) {
      if p in PathSet(t) {
        var k := Position(t, p);
        assert u[k] == t[k];
        DistinctLookup(u, k);
      }
    }
  }

  lemma {:induction false} UpsertPaths<V>(t: Table<V>, e: Entry<V>)
    requires Distinct(t)
    ensures var u := Upsert(t, e); Distinct(u) && PathSet(u) == PathSet(t) + {e.path}
  {
    var i, u := Position(t, e.path), Upsert(t, e);
    assert u[i] == e && e in u;
    assert forall k :: 0 <= k < |t| && k != i ==> u[k] == t[k] && u[k] in u && t[k] in t;
    forall p | p in PathSet(t) ensures p in PathSet(u) {
      var k := Position(t, p);
      assert u[k].path == p;
    }
  }

  lemma {:induction false} WithoutMembers<V>(t: Table<V>, path: string)
    ensures forall e :: e in Without(t, path) ==> e in t
  {
  }

  lemma {:induction false} WithoutAbsent<V>(t: Table<V>, path: string)
    ensures Lookup(t, path).None? ==> Without(t, path) == t
  {
  }

  lemma {:induction false} WithoutFacts<V>(t: Table<V>, path: string)
    requires Distinct(t)
    ensures var u := Without(t, path);
            && Distinct(u) && PathSet(u) == PathSet(t) - {path}
            && (forall p :: p != path ==> Lookup(u, p) == Lookup(t, p))
  {
    WithoutIsExcept(t, path);
    ExceptMembers(t, {path});
    var u := Without(t, path);
    forall p | p != path ensures Lookup(u, p) == Lookup(t, p) {
      if p in PathSet(t) {
        var e := Lookup(u, p).value;
        var k :| 0 <= k < |t| && t[k] == e;
        DistinctLookup(t, k);
      }
    }
  }

  /** Two tables with the same paths in the same places and the same lookups are equal. */
  lemma {:induction false} SamePathsSameLookups<V>(s: Table<V>, t: Table<V>)
    requires Distinct(t) && Paths(s) == Paths(t)
    requires forall p :: p in PathSet(t) ==> Lookup(s, p) == Lookup(t, p)
    ensures s == t
  {
    assert |s| == |Paths(s)| == |t|;
    assert forall i :: 0 <= i < |t| ==> s[i].path == Paths(s)[i] && t[i].path == Paths(t)[i];
    assert Distinct(s);
    forall i | 0 <= i < |t| ensures s[i] == t[i] {
      assert t[i] in t;
      DistinctLookup(s, i);
      DistinctLookup(t, i);
    }
  }

  /** Appending an entry with a new path moves no other. */
  lemma {:induction false} FirstPart<V>(t: Table<V>, e: Entry<V>, path: string)
    ensures path in PathSet(t) ==> Position(t + [e], path) == Position(t, path) < |t|
    ensures e.path !in PathSet(t) ==> Position(t + [e], e.path) == |t|
  {
    var u := t + [e];
    assert forall k :: 0 <= k < |t| ==> u[k] == t[k] && t[k] in t;
    assert u[|t|] == e && e in u;
    assert forall k :: 0 <= k < |t| ==> u[k] in u;
  }

  /** The entries of one table are entries of the other, in the same order. */
  ghost predicate KeepsOrder<V>(part: Table<V>, whole: Table<V>) {
    && (forall e :: e in part ==> e in whole)
    && forall i, j :: 0 <= i < j < |part| ==> Position(whole, part[i].path) < Position(whole, part[j].path)
  }

  /** Both tables get the entry, or only the longer one. */
  lemma {:induction false} KeepsOrderSnoc<V>(part: Table<V>, whole: Table<V>, e: Entry<V>)
    requires Distinct(whole + [e]) && KeepsOrder(part, whole)
    ensures KeepsOrder(part, whole + [e]) && KeepsOrder(part + [e], whole + [e])
  {
    Snoc(whole, e);
    FirstPart(whole, e, e.path);
    forall i | 0 <= i < |part| ensures Position(whole + [e], part[i].path) == Position(whole, part[i].path) < |whole| {
      assert part[i] in whole;
      FirstPart(whole, e, part[i].path);
    }
    hide Position, PathSet, Distinct;
    assert forall i :: 0 <= i < |part| ==> (part + [e])[i] == part[i];
  }

  // ------------------------------------------------------------------ signals

  datatype Kind = Connections | AccessPoints | Devices | ActiveConnections | Configs | Peers

  datatype Object = Object(kind: Kind, path: string)

  /** InterfacesAdded and InterfacesRemoved of the object manager. */
  datatype Signal = Added(subject: Object) | Removed(subject: Object)

  ghost function Objects<V>(kind: Kind, t: Table<V>): set<Object> {
    set p | p in PathSet(t) :: Object(kind, p)
  }

  /** The objects a client believes in after seeing the signals. */
  function Replay(view: set<Object>, log: seq<Signal>): set<Object> {
    if log == [] then view
    else
      var before := Replay(view, log[..|log| - 1]);
      match log[|log| - 1]
      case Added(o) => before + {o}
      case Removed(o) => before - {o}
  }

  ghost predicate EachOnce(log: seq<Signal>) {
    forall i, j :: 0 <= i < j < |log| ==> log[i].subject != log[j].subject
  }

  /** The log announces exactly new-minus-old as added and old-minus-new as removed,
      each object once. */
  ghost predicate Exact(old_: set<Object>, log: seq<Signal>, new_: set<Object>) {
    && EachOnce(log)
    && (forall o :: Added(o) in log <==> o in new_ - old_)
    && (forall o :: Removed(o) in log <==> o in old_ - new_)
  }

  lemma {:induction false} ReplayMember(view: set<Object>, log: seq<Signal>, o: Object)
    requires EachOnce(log)
    ensures o in Replay(view, log) <==> Added(o) in log || (o in view && Removed(o) !in log)
  {
    if log != [] {
      var front, last := log[..|log| - 1], log[|log| - 1];
      assert log == front + [last];
      assert EachOnce(front);
      ReplayMember(view, front, o);
      assert forall s :: s in log <==> s in front || s == last;
      if last.subject == o {
        forall i | 0 <= i < |front| ensures front[i].subject != o {
          assert log[i].subject != log[|log| - 1].subject;
        }
      }
    }
  }

  lemma {:induction false} ExactReplay(old_: set<Object>, log: seq<Signal>, new_: set<Object>)
    requires Exact(old_, log, new_)
    ensures Replay(old_, log) == new_
  {
    forall o ensures o in Replay(old_, log) <==> o in new_ {
      ReplayMember(old_, log, o);
    }
  }

  ghost predicate Mentions(log: seq<Signal>, o: Object) {
    Added(o) in log || Removed(o) in log
  }

  lemma {:induction false} ExactThen(a: set<Object>, first: seq<Signal>, b: set<Object>, second: seq<Signal>,
                                     c: set<Object>)
    requires Exact(a, first, b) && Exact(b, second, c)
    requires forall o :: Mentions(first, o) ==> !Mentions(second, o)
    ensures Exact(a, first + second, c)
  {
    var log := first + second;
    assert forall s :: s in log <==> s in first || s in second;
    forall i, j | 0 <= i < j < |log| ensures log[i].subject != log[j].subject {
      if i < |first| <= j {
        assert log[i] in first && log[j] in second;
        assert log[i] == Added(log[i].subject) || log[i] == Removed(log[i].subject);
        assert log[j] == Added(log[j].subject) || log[j] == Removed(log[j].subject);
        assert Mentions(first, log[i].subject) && Mentions(second, log[j].subject);
      } else if |first| <= i {
        assert log[i] == second[i - |first|] && log[j] == second[j - |first|];
      }
    }
    forall o ensures (Added(o) in log <==> o in c - a) && (Removed(o) in log <==> o in a - c) {
      assert Mentions(first, o) ==> !Mentions(second, o);
    }
  }

  lemma {:induction false} ExactWiden(a: set<Object>, log: seq<Signal>, b: set<Object>, rest: set<Object>)
    requires Exact(a, log, b) && a !! rest && b !! rest
    ensures Exact(a + rest, log, b + rest)
  {
  }

  // ------------------------------------------------------------- loop outcomes

  datatype Outcome<V> = Outcome(table: Table<V>, log: seq<Signal>)

  function UpsertNote<V>(kind: Kind, o: Outcome<V>, e: Entry<V>): Outcome<V> {
    Outcome(Upsert(o.table, e),
            if Lookup(o.table, e.path).Some? then o.log else o.log + [Added(Object(kind, e.path))])
  }

  /** Insert or update every entry in turn, announcing the ones that were not there. */
  function UpsertAll<V>(kind: Kind, t: Table<V>, es: Table<V>): Outcome<V> {
    if es == [] then Outcome(t, [])
    else UpsertNote(kind, UpsertAll(kind, t, es[..|es| - 1]), es[|es| - 1])
  }

  /** Remove every path in turn and announce it. */
  function RemoveAll<V>(kind: Kind, t: Table<V>, paths: seq<string>): Outcome<V> {
    if paths == [] then Outcome(t, [])
    else
      var o := RemoveAll(kind, t, paths[..|paths| - 1]);
      var path := paths[|paths| - 1];
      Outcome(Without(o.table, path), o.log + [Removed(Object(kind, path))])
  }

  function RepushNote<V>(kind: Kind, o: Outcome<V>, e: Entry<V>): Outcome<V> {
    Outcome(Repush(o.table, e),
            if Lookup(o.table, e.path).Some? then o.log else o.log + [Added(Object(kind, e.path))])
  }

  /** Filter out and append every entry in turn, announcing the ones that were not there. */
  function RepushAll<V>(kind: Kind, t: Table<V>, es: Table<V>): Outcome<V> {
    if es == [] then Outcome(t, [])
    else RepushNote(kind, RepushAll(kind, t, es[..|es| - 1]), es[|es| - 1])
  }

  /** The paths of the table, in order, that are not desired. */
  function Stale<V>(t: Table<V>, desired: seq<string>): seq<string> {
    if t == [] then []
    else
      var rest := Stale(t[..|t| - 1], desired);
      if t[|t| - 1].path in desired then rest else rest + [t[|t| - 1].path]
  }

  // ------------------------------------------------------- loop theorems: upsert

  /** The last entry of the list with this path. */
  function Latest<V>(es: Table<V>, path: string): (r: Option<Entry<V>>)
    ensures r.Some? ==> r.value.path == path
  {
    if es == [] then None
    else if es[|es| - 1].path == path then Some(es[|es| - 1])
    else Latest(es[..|es| - 1], path)
  }

  lemma {:induction false} LatestDistinct<V>(es: Table<V>, i: nat)
    requires Distinct(es) && i < |es|
    ensures Latest(es, es[i].path) == Some(es[i])
  {
    if i < |es| - 1 {
      LatestDistinct(es[..|es| - 1], i);
    }
  }

  lemma {:induction false} UpsertAllShape<V>(kind: Kind, t: Table<V>, es: Table<V>)
    requires Distinct(t)
    ensures var u := UpsertAll(kind, t, es).table;
            && Distinct(u) && PathSet(u) == PathSet(t) + PathSet(es)
            && (forall p :: Lookup(u, p) == if Latest(es, p).Some? then Latest(es, p) else Lookup(t, p))
  {
    if es != [] {
      var front, last := es[..|es| - 1], es[|es| - 1];
      UpsertAllShape(kind, t, front);
      UpsertFacts(UpsertAll(kind, t, front).table, last);
      Unsnoc(es);
    }
  }

  lemma {:induction false} UpsertAllInPlace<V>(kind: Kind, t: Table<V>, es: Table<V>)
    requires Distinct(t) && PathSet(es) <= PathSet(t)
    ensures Paths(UpsertAll(kind, t, es).table) == Paths(t)
    ensures UpsertAll(kind, t, es).log == []
  {
    if es != [] {
      var front, last := es[..|es| - 1], es[|es| - 1];
      Unsnoc(es);
      UpsertAllInPlace(kind, t, front);
      UpsertAllShape(kind, t, front);
      var before := UpsertAll(kind, t, front);
      assert UpsertAll(kind, t, es) == UpsertNote(kind, before, last);
      assert Position(before.table, last.path) < |before.table|;
      hide UpsertAll, PathSet, Distinct;
      UpsertKeepsPaths(before.table, last);
    }
  }

  /** Replacing an entry that is there changes no path. */
  lemma {:induction false} UpsertKeepsPaths<V>(t: Table<V>, e: Entry<V>)
    requires Position(t, e.path) < |t|
    ensures Paths(Upsert(t, e)) == Paths(t)
  {
    var i, u := Position(t, e.path), Upsert(t, e);
    assert u == t[i := e] && |u| == |t| && t[i].path == e.path;
    assert forall k :: 0 <= k < |t| ==> u[k].path == t[k].path;
  }

  lemma {:induction false} UpsertAllExact<V>(kind: Kind, t: Table<V>, es: Table<V>)
    requires Distinct(t)
    ensures var r := UpsertAll(kind, t, es); Exact(Objects(kind, t), r.log, Objects(kind, r.table))
  {
    if es != [] {
      var front, last := es[..|es| - 1], es[|es| - 1];
      UpsertAllExact(kind, t, front);
      UpsertAllShape(kind, t, front);
      var before := UpsertAll(kind, t, front);
      UpsertFacts(before.table, last);
      NoteAdded(kind, t, before.log, before.table, last.path, Upsert(before.table, last));
    }
  }

  /** Appending an announcement for a path that was not there keeps a log exact. */
  lemma {:induction false} NoteAdded<V>(kind: Kind, t: Table<V>, log: seq<Signal>, before: Table<V>, path: string,
                                        after: Table<V>)
    requires Exact(Objects(kind, t), log, Objects(kind, before))
    requires PathSet(t) <= PathSet(before) && PathSet(after) == PathSet(before) + {path}
    ensures path in PathSet(before) ==> Exact(Objects(kind, t), log, Objects(kind, after))
    ensures path !in PathSet(before) ==>
              Exact(Objects(kind, t), log + [Added(Object(kind, path))], Objects(kind, after))
  {
    var a, b, o := Objects(kind, t), Objects(kind, before), Object(kind, path);
    if path in PathSet(before) {
      assert PathSet(after) == PathSet(before);
    } else {
      assert Objects(kind, after) == b + {o};
      ExactAppendAdded(a, log, b, o);
    }
  }

  lemma {:induction false} ExactAppendAdded(a: set<Object>, log: seq<Signal>, b: set<Object>, o: Object)
    requires Exact(a, log, b) && o !in a && o !in b
    ensures Exact(a, log + [Added(o)], b + {o})
  {
    assert forall k :: Mentions([Added(o)], k) ==> k == o;
    ExactThen(a, log, b, [Added(o)], b + {o});
  }

  lemma {:induction false} ExactAppendRemoved(a: set<Object>, log: seq<Signal>, b: set<Object>, o: Object)
    requires Exact(a, log, b) && o in a && o in b
    ensures Exact(a, log + [Removed(o)], b - {o})
  {
    assert forall k :: Mentions([Removed(o)], k) ==> k == o;
    ExactThen(a, log, b, [Removed(o)], b - {o});
  }

  /** Running the loop again changes nothing and announces nothing. */
  lemma {:induction false} UpsertAllAgain<V>(kind: Kind, t: Table<V>, es: Table<V>)
    requires Distinct(t)
    requires PathSet(es) <= PathSet(t)
    requires forall p :: Latest(es, p).Some? ==> Lookup(t, p) == Latest(es, p)
    ensures UpsertAll(kind, t, es) == Outcome(t, [])
  {
    UpsertAllInPlace(kind, t, es);
    UpsertAllShape(kind, t, es);
    SamePathsSameLookups(UpsertAll(kind, t, es).table, t);
  }

  // ------------------------------------------------------- loop theorems: remove

  lemma {:induction false} StaleMembers<V>(t: Table<V>, desired: seq<string>)
    ensures forall p :: p in Stale(t, desired) <==> p in PathSet(t) && p !in desired
    ensures Distinct(t) ==> NoRepeats(Stale(t, desired))
  {
    if t != [] {
      Unsnoc(t);
      StaleMembers(t[..|t| - 1], desired);
    }
  }

  ghost predicate NoRepeats(paths: seq<string>) {
    forall i, j :: 0 <= i < j < |paths| ==> paths[i] != paths[j]
  }

  lemma {:induction false} RemoveAllShape<V>(kind: Kind, t: Table<V>, paths: seq<string>)
    requires Distinct(t)
    ensures RemoveAll(kind, t, paths).table == Except(t, set p | p in paths)
  {
    if paths == [] {
      ExceptNone(t, set p | p in paths);
    } else {
      var front, last := paths[..|paths| - 1], paths[|paths| - 1];
      assert paths == front + [last];
      RemoveAllShape(kind, t, front);
      var gone := set p | p in front;
      ExceptPaths(t, gone);
      WithoutIsExcept(Except(t, gone), last);
      ExceptTwice(t, gone, {last});
      assert gone + {last} == set p | p in paths;
    }
  }

  lemma {:induction false} RemoveAllExact<V>(kind: Kind, t: Table<V>, paths: seq<string>)
    requires Distinct(t) && NoRepeats(paths) && (forall p :: p in paths ==> p in PathSet(t))
    ensures var r := RemoveAll(kind, t, paths); Exact(Objects(kind, t), r.log, Objects(kind, r.table))
  {
    if paths != [] {
      var front, last := paths[..|paths| - 1], paths[|paths| - 1];
      assert paths == front + [last] && last in paths && last !in front;
      RemoveAllExact(kind, t, front);
      RemoveAllShape(kind, t, front);
      RemoveAllShape(kind, t, paths);
      ExceptPaths(t, set p | p in front);
      ExceptPaths(t, set p | p in paths);
      var before := RemoveAll(kind, t, front);
      NoteRemoved(kind, t, before.log, before.table, last, Without(before.table, last));
    }
  }

  lemma {:induction false} NoteRemoved<V>(kind: Kind, t: Table<V>, log: seq<Signal>, before: Table<V>, path: string,
                                          after: Table<V>)
    requires Exact(Objects(kind, t), log, Objects(kind, before))
    requires path in PathSet(t) && path in PathSet(before) && PathSet(after) == PathSet(before) - {path}
    ensures Exact(Objects(kind, t), log + [Removed(Object(kind, path))], Objects(kind, after))
  {
    var o := Object(kind, path);
    assert Objects(kind, after) == Objects(kind, before) - {o};
    ExactAppendRemoved(Objects(kind, t), log, Objects(kind, before), o);
  }

  /** Removing what is not desired keeps exactly the desired entries, in their order. */
  lemma {:induction false} PruneFacts<V>(kind: Kind, t: Table<V>, desired: seq<string>)
    requires Distinct(t)
    ensures var r := RemoveAll(kind, t, Stale(t, desired));
            && r.table == Except(t, PathSet(t) - set p | p in desired)
            && Distinct(r.table)
            && PathSet(r.table) == PathSet(t) * (set p | p in desired)
            && Exact(Objects(kind, t), r.log, Objects(kind, r.table))
  {
    StaleMembers(t, desired);
    RemoveAllShape(kind, t, Stale(t, desired));
    RemoveAllExact(kind, t, Stale(t, desired));
    var dead := PathSet(t) - set p | p in desired;
    assert dead == set p | p in Stale(t, desired);
    ExceptMembers(t, dead);
  }

  lemma {:induction false} StaleNone<V>(t: Table<V>, desired: seq<string>)
    requires forall p :: p in PathSet(t) ==> p in desired
    ensures Stale(t, desired) == []
  {
    if t != [] {
      assert t[|t| - 1] in t && forall e :: e in t[..|t| - 1] ==> e in t;
      StaleNone(t[..|t| - 1], desired);
    }
  }

  // ------------------------------------------------------- loop theorems: repush

  lemma {:induction false} RepushAllPaths<V>(kind: Kind, t: Table<V>, es: Table<V>)
    requires Distinct(t)
    ensures var u := RepushAll(kind, t, es).table;
            Distinct(u) && PathSet(u) == PathSet(t) + PathSet(es)
  {
    if es != [] {
      RepushAllPaths(kind, t, es[..|es| - 1]);
      Unsnoc(es);
      RepushFacts(RepushAll(kind, t, es[..|es| - 1]).table, es[|es| - 1]);
    }
  }

  lemma {:induction false} RepushAllSnoc<V>(kind: Kind, t: Table<V>, es: Table<V>)
    requires es != []
    ensures var e := es[|es| - 1];
            RepushAll(kind, t, es).table == Except(RepushAll(kind, t, es[..|es| - 1]).table, {e.path}) + [e]
  {
    hide Except, Lookup;
  }

  lemma {:induction false} RepushBehind<V>(kept: Table<V>, alone: Table<V>, e: Entry<V>)
    ensures Except(kept + alone, {e.path}) + [e] == Except(kept, {e.path}) + (Except(alone, {e.path}) + [e])
  {
    ExceptConcat(kept, alone, {e.path});
    hide Except;
    var a, b := Except(kept, {e.path}), Except(alone, {e.path});
    assert (a + b) + [e] == a + (b + [e]);
  }

  lemma {:induction false} RepushNothing<V>(kind: Kind, t: Table<V>)
    ensures RepushAll(kind, t, []).table == Except(t, PathSet<V>([])) + RepushAll<V>(kind, [], []).table
  {
    ExceptNone(t, PathSet<V>([]));
    assert t + [] == t;
  }

  /** The result is what the list itself leaves, after the entries it does not name. */
  lemma {:induction false} RepushAllShape<V>(kind: Kind, t: Table<V>, es: Table<V>)
    ensures RepushAll(kind, t, es).table == Except(t, PathSet(es)) + RepushAll(kind, [], es).table
  {
    if es == [] {
      RepushNothing(kind, t);
    } else {
      hide RepushAll, Except, PathSet, Distinct;
      var front, last := es[..|es| - 1], es[|es| - 1];
      RepushAllShape(kind, t, front);
      RepushAllSnoc(kind, t, es);
      RepushAllSnoc(kind, [], es);
      Unsnoc(es);
      ExceptTwice(t, PathSet(front), {last.path});
      RepushBehind(Except(t, PathSet(front)), RepushAll(kind, [], front).table, last);
    }
  }

  lemma {:induction false} RepushAllExact<V>(kind: Kind, t: Table<V>, es: Table<V>)
    requires Distinct(t)
    ensures var r := RepushAll(kind, t, es); Exact(Objects(kind, t), r.log, Objects(kind, r.table))
  {
    if es != [] {
      var front, last := es[..|es| - 1], es[|es| - 1];
      RepushAllExact(kind, t, front);
      RepushAllPaths(kind, t, front);
      var before := RepushAll(kind, t, front);
      RepushFacts(before.table, last);
      NoteAdded(kind, t, before.log, before.table, last.path, Repush(before.table, last));
    }
  }

  lemma {:induction false} RepushFacts<V>(t: Table<V>, e: Entry<V>)
    requires Distinct(t)
    ensures Distinct(Repush(t, e)) && PathSet(Repush(t, e)) == PathSet(t) + {e.path}
  {
    ExceptPaths(t, {e.path});
    Snoc(Except(t, {e.path}), e);
  }

  /** Although each insert filters out and appends, distinct entries end up in list order. */
  lemma {:induction false} RepushAllInOrder<V>(kind: Kind, es: Table<V>)
    requires Distinct(es)
    ensures RepushAll(kind, [], es).table == es
  {
    if es != [] {
      Unsnoc(es);
      RepushAllInOrder(kind, es[..|es| - 1]);
      ExceptNone(es[..|es| - 1], {es[|es| - 1].path});
    }
  }

  /** Running the loop again over its own result changes nothing and announces nothing. */
  lemma {:induction false} RepushAllAgain<V>(kind: Kind, es: Table<V>)
    ensures var u := RepushAll(kind, [], es).table;
            RepushAll(kind, u, es) == Outcome(u, [])
  {
    var u := RepushAll(kind, [], es).table;
    RepushAllPaths(kind, [], es);
    RepushAllShape(kind, u, es);
    ExceptAll(u, PathSet(es));
    RepushAllQuiet(kind, u, es);
  }

  lemma {:induction false} RepushAllQuiet<V>(kind: Kind, t: Table<V>, es: Table<V>)
    requires Distinct(t) && PathSet(es) <= PathSet(t)
    ensures RepushAll(kind, t, es).log == []
  {
    if es != [] {
      Unsnoc(es);
      RepushAllQuiet(kind, t, es[..|es| - 1]);
      RepushAllPaths(kind, t, es[..|es| - 1]);
    }
  }
}
