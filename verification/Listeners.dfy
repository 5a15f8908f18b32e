// What a listener can reconstruct from the events it is told, and the proof that the
// temporary storage's events replay to exactly its key set over every run.
module Listeners {
  import opened PyDicts
  import opened TempStorage
  import opened TempStorageRuns
  import opened StorageBounds

  // None when an event makes no sense: adding a present name, modifying or removing an absent one.
  function Replay(events: seq<Event>, present: set<string>): Option<set<string>>
    decreases |events|
  {
    if events == [] then Some(present)
    else
      var e := events[0];
      if (e.name in present) == (e.change == Added) then None
      else
        Replay(events[1..], match e.change
                            case Added => present + {e.name}
                            case Modified => present
                            case Removed => present - {e.name})
  }

  lemma {:induction false} ReplayAppend(a: seq<Event>, b: seq<Event>, present: set<string>)
    ensures Replay(a + b, present) ==
      if Replay(a, present).None? then None else Replay(b, Replay(a, present).value)
    decreases |a|
  {
    if a == [] {
      assert a + b == b;
    } else {
      assert (a + b)[1..] == a[1..] + b;
      var e := a[0];
      if (e.name in present) != (e.change == Added) {
        ReplayAppend(a[1..], b, match e.change
                                case Added => present + {e.name}
                                case Modified => present
                                case Removed => present - {e.name});
      }
    }
  }

  lemma ReplayOne(change: Change, name: string, present: set<string>)
    requires (name in present) != (change == Added)
    ensures Replay([Event(change, name)], present) == Some(match change
                                                           case Added => present + {name}
                                                           case Modified => present
                                                           case Removed => present - {name})
  {
    assert [Event(change, name)][1..] == [];
  }

  lemma {:induction false} ReplayAdded(names: seq<string>, present: set<string>)
    requires Distinct(names) && Elements(names) !! present
    ensures Replay(Each(names, Added), present) == Some(present + Elements(names))
  {
    if names == [] {
      assert present + Elements(names) == present;
    } else {
      var front, last := names[..|names| - 1], names[|names| - 1];
      assert names == front + [last];
      ElementsAppend(front, last);
      ReplayAdded(front, present);
      ReplayAppend(Each(front, Added), [Event(Added, last)], present);
      assert last in Elements(names) && last !in Elements(front);
      ReplayOne(Added, last, present + Elements(front));
      assert present + Elements(front) + {last} == present + Elements(names);
    }
  }

  lemma {:induction false} ReplayModified(names: seq<string>, present: set<string>)
    requires Elements(names) <= present
    ensures Replay(Each(names, Modified), present) == Some(present)
  {
    if names != [] {
      var front, last := names[..|names| - 1], names[|names| - 1];
      assert names == front + [last];
      ElementsAppend(front, last);
      ReplayModified(front, present);
      ReplayAppend(Each(front, Modified), [Event(Modified, last)], present);
      ReplayOne(Modified, last, present);
    }
  }

  lemma {:induction false} ReplayRemoved(names: seq<string>, present: set<string>)
    requires Distinct(names) && Elements(names) <= present
    ensures Replay(Each(names, Removed), present) == Some(present - Elements(names))
  {
    if names == [] {
      assert present - Elements(names) == present;
    } else {
      var front, last := names[..|names| - 1], names[|names| - 1];
      assert names == front + [last];
      ElementsAppend(front, last);
      ReplayRemoved(front, present);
      ReplayAppend(Each(front, Removed), [Event(Removed, last)], present);
      assert last in Elements(names) && last !in Elements(front);
      ReplayOne(Removed, last, present - Elements(front));
      assert present - Elements(front) - {last} == present - Elements(names);
    }
  }

  lemma {:induction false} EachIs(names: seq<string>, change: Change)
    ensures |Each(names, change)| == |names|
    ensures forall i :: 0 <= i < |names| ==> Each(names, change)[i] == Event(change, names[i])
    ensures forall e: Event :: e in Each(names, change) <==> e.change == change && e.name in names
  {
    if names != [] {
      var front, last := names[..|names| - 1], names[|names| - 1];
      EachIs(front, change);
      assert names == front + [last];
    }
  }

  /* ---------- the names each operation reports ---------- */

  lemma {:induction false} AddedNames(t: Tables, batch: Batch, now: int)
    ensures Distinct(NamesInBatch(t, batch, now, true))
    ensures forall n :: n in NamesInBatch(t, batch, now, true) ==> n !in t.agents
    ensures forall n :: n in InsertAll(t, batch, now).agents <==> n in t.agents || n in NamesInBatch(t, batch, now, true)
  {
    if batch != [] {
      var front, id := batch[..|batch| - 1], batch[|batch| - 1].0.id;
      AddedNames(t, front, now);
      if id !in InsertAll(t, front, now).agents {
        DistinctAppend(NamesInBatch(t, front, now, true), id);
      } else {
        assert NamesInBatch(t, batch, now, true) == NamesInBatch(t, front, now, true);
      }
    }
  }

  lemma {:induction false} ReplacedNames(t: Tables, batch: Batch, now: int)
    ensures forall n :: n in NamesInBatch(t, batch, now, false) ==> n in InsertAll(t, batch, now).agents
  {
    if batch != [] {
      ReplacedNames(t, batch[..|batch| - 1], now);
    }
  }

  lemma {:induction false} ExpiredAre(names: seq<string>, at: map<string, Reservation>, reading: string -> int)
    requires Distinct(names)
    ensures Distinct(ExpiredAmong(names, at, reading))
    ensures forall n :: n in ExpiredAmong(names, at, reading) <==>
      n in names && n in at && IsExpired(at[n], reading(n))
  {
    if names != [] {
      var front, last := names[..|names| - 1], names[|names| - 1];
      assert names == front + [last];
      ExpiredAre(front, at, reading);
      if last in at && IsExpired(at[last], reading(last)) {
        DistinctAppend(ExpiredAmong(front, at, reading), last);
      } else {
        assert ExpiredAmong(names, at, reading) == ExpiredAmong(front, at, reading);
      }
    }
  }

  // The expired names come in the order of the table.
  lemma {:induction false} ExpiredInOrder(a: seq<string>, b: seq<string>, at: map<string, Reservation>,
                                          reading: string -> int)
    ensures ExpiredAmong(a + b, at, reading) == ExpiredAmong(a, at, reading) + ExpiredAmong(b, at, reading)
    ensures |b| == 1 ==>
      ExpiredAmong(b, at, reading) == if b[0] in at && at[b[0]].expires < reading(b[0]) then b else []
  {
    if b == [] {
      assert a + b == a;
      assert ExpiredAmong(a, at, reading) + [] == ExpiredAmong(a, at, reading);
    } else {
      var front, last := b[..|b| - 1], b[|b| - 1];
      assert (a + b)[..|a + b| - 1] == a + front;
      ExpiredInOrder(a, front, at, reading);
      var own := if last in at && IsExpired(at[last], reading(last)) then [last] else [];
      Regroup(ExpiredAmong(a, at, reading), ExpiredAmong(front, at, reading), own);
    }
  }

  lemma EvictReplays(t: Tables, maxItems: int, threshold: nat)
    requires SameKeys(t)
    ensures var evicted := Evicted(t, maxItems, threshold);
      Replay(Each(evicted, Removed), t.agents.Keys) == Some(RemoveAll(t, evicted).agents.Keys)
  {
    var evicted := Evicted(t, maxItems, threshold);
    RemoveAllTables(t, evicted);
    if maxItems > 0 && |t.agents| - maxItems > threshold {
      VictimsAre(t, maxItems, threshold);
      var sorted := SortByTime(t.access.order, t.access.at);
      DistinctPrefix(sorted, |evicted|);
      forall v | v in evicted ensures v in Elements(sorted) {}
      ReplayRemoved(evicted, t.agents.Keys);
    } else {
      assert t.agents - Elements(evicted) == t.agents;
    }
    assert (t.agents - Elements(evicted)).Keys == t.agents.Keys - Elements(evicted);
  }

  lemma AddReplays(s: Store, batch: Batch, now: int)
    requires SameKeys(s.tables)
    ensures Replay(AddStep(s, batch, now).events, s.tables.agents.Keys) ==
      Some(AddStep(s, batch, now).store.tables.agents.Keys)
  {
    if batch != [] {
      var t, keys := s.tables, s.tables.agents.Keys;
      var overfull := InsertAll(t, batch, now);
      var added := Each(NamesInBatch(t, batch, now, true), Added);
      var replaced := Each(NamesInBatch(t, batch, now, false), Modified);
      var evicted := Each(Evicted(overfull, s.maxItems, s.threshold), Removed);
      AddedNames(t, batch, now);
      ReplacedNames(t, batch, now);
      assert overfull.agents.Keys == keys + Elements(NamesInBatch(t, batch, now, true));
      InsertAllKeeps(t, batch, now);
      ReplayAdded(NamesInBatch(t, batch, now, true), keys);
      ReplayModified(NamesInBatch(t, batch, now, false), overfull.agents.Keys);
      EvictReplays(overfull, s.maxItems, s.threshold);
      ReplayAppend(added, replaced, keys);
      ReplayAppend(added + replaced, evicted, keys);
    }
  }

  lemma FetchReplays(s: Store, name: string, e: Entry, now: int)
    requires SameKeys(s.tables) && name !in s.tables.agents
    ensures var overfull := Insert(s.tables, name, e, now);
      var evicted := Evicted(overfull, s.maxItems, s.threshold);
      Replay([Event(Added, name)] + Each(evicted, Removed), s.tables.agents.Keys) ==
        Some(RemoveAll(overfull, evicted).agents.Keys)
  {
    var keys, overfull := s.tables.agents.Keys, Insert(s.tables, name, e, now);
    var evicted := Each(Evicted(overfull, s.maxItems, s.threshold), Removed);
    InsertKeeps(s.tables, name, e, now);
    AgentsOfPut(s.tables, name, e, now);
    ReplayOne(Added, name, keys);
    ReplayAppend([Event(Added, name)], evicted, keys);
    EvictReplays(overfull, s.maxItems, s.threshold);
  }

  lemma LookupReplays(s: Store, name: string, first: int, second: int, last: int)
    requires SameKeys(s.tables)
    ensures Replay(LookupStep(s, name, first, second, last).events, s.tables.agents.Keys) ==
      Some(LookupStep(s, name, first, second, last).store.tables.agents.Keys)
  {
    var keys := s.tables.agents.Keys;
    if name in s.tables.reservations.at {
      ReplayOne(Removed, name, keys);
      assert (s.tables.agents - {name}).Keys == keys - {name};
    } else if s.base.Some? && FromBase(s.base.value, name, first).Some? {
      var e := FromBase(s.base.value, name, first).value;
      if !IsExpired(e.reservation, second) {
        FetchReplays(s, name, e, last);
      }
    }
  }

  lemma StepReplays(s: Store, op: Op)
    requires SameKeys(s.tables)
    ensures Replay(Step(s, op).events, s.tables.agents.Keys) == Some(Step(s, op).store.tables.agents.Keys)
  {
    match op
    case Add(batch, now) => AddReplays(s, batch, now);
    case Lookup(name, first, second, last) => LookupReplays(s, name, first, second, last);
    case Expire(reading, _, _) =>
      var t := s.tables;
      var expired := ExpiredNames(t.reservations, reading);
      ExpiredAre(t.reservations.order, t.reservations.at, reading);
      assert Elements(expired) <= t.agents.Keys;
      ReplayRemoved(expired, t.agents.Keys);
      RemoveAllTables(t, expired);
      assert (t.agents - Elements(expired)).Keys == t.agents.Keys - Elements(expired);
    case SetMax(m) => EvictReplays(s.tables, m, Threshold(m));
    case BaseSweep(_) =>
  }

  // Replaying everything a listener was told in a run yields exactly the final key set.
  lemma {:induction false} RunReplays(s: Store, ops: seq<Op>)
    requires SameKeys(s.tables)
    ensures Replay(Told(s, ops), s.tables.agents.Keys) == Some(Final(s, ops).tables.agents.Keys)
    decreases |ops|
  {
    if ops != [] {
      var next := Step(s, ops[0]);
      StepReplays(s, ops[0]);
      StepKeeps(s, ops[0]);
      RunReplays(next.store, ops[1..]);
      ReplayAppend(next.events, Told(next.store, ops[1..]), s.tables.agents.Keys);
    }
  }

  /* ---------- announcements that cross ---------- */

  // Changes are made under the lock and announced outside it, so those of two threads can reach a
  // listener in another order than they were made.
  function OfName(events: seq<Event>, name: string): seq<Event>
    decreases |events|
  {
    if events == [] then []
    else (if events[0].name == name then [events[0]] else []) + OfName(events[1..], name)
  }

  // What the events of one name make of its presence.
  function ReplayName(events: seq<Event>, present: bool): Option<bool>
    decreases |events|
  {
    if events == [] then Some(present)
    else if present == (events[0].change == Added) then None
    else ReplayName(events[1..], events[0].change != Removed)
  }

  lemma {:induction false} ReplayByName(events: seq<Event>, present: set<string>)
    ensures Replay(events, present).Some? <==> forall n :: ReplayName(OfName(events, n), n in present).Some?
    ensures Replay(events, present).Some? ==>
      forall n :: ReplayName(OfName(events, n), n in present) == Some(n in Replay(events, present).value)
    decreases |events|
  {
    if events != [] {
      var e, rest := events[0], events[1..];
      var next := match e.change case Added => present + {e.name} case Modified => present case Removed => present - {e.name};
      forall n
        ensures ReplayName(OfName(events, n), n in present) ==
          if n == e.name && (n in present) == (e.change == Added) then None else ReplayName(OfName(rest, n), n in next)
      {
        FirstOfName(events, n, n in present);
      }
      if (e.name in present) == (e.change == Added) {
        assert ReplayName(OfName(events, e.name), e.name in present).None?;
      } else {
        ReplayByName(rest, next);
      }
    }
  }

  lemma FirstOfName(events: seq<Event>, name: string, present: bool)
    requires events != []
    ensures var e, later := events[0], OfName(events[1..], name);
      ReplayName(OfName(events, name), present) ==
        if e.name != name then ReplayName(later, present)
        else if present == (e.change == Added) then None
        else ReplayName(later, e.change != Removed)
  {
    var e, later := events[0], OfName(events[1..], name);
    assert [] + later == later;
    assert ([e] + later)[1..] == later;
  }

  // Whatever reaches a listener rebuilds the key set exactly when, name by name, it does.
  lemma RebuildsExactly(heard: seq<Event>, before: set<string>, after: set<string>)
    ensures Replay(heard, before) == Some(after) <==>
      forall n :: ReplayName(OfName(heard, n), n in before) == Some(n in after)
  {
    ReplayByName(heard, before);
    if forall n :: ReplayName(OfName(heard, n), n in before) == Some(n in after) {
      assert Replay(heard, before).Some?;
      forall n
        ensures n in Replay(heard, before).value <==> n in after
      {
        assert ReplayName(OfName(heard, n), n in before) == Some(n in after);
      }
      assert Replay(heard, before).value == after;
    }
  }

  // So announcements may cross as long as those about one name do not.
  lemma CrossedReplays(made: seq<Event>, heard: seq<Event>, before: set<string>)
    requires forall n :: OfName(heard, n) == OfName(made, n)
    ensures Replay(heard, before) == Replay(made, before)
  {
    ReplayByName(made, before);
    if Replay(made, before).Some? {
      RebuildsExactly(heard, before, Replay(made, before).value);
    } else {
      ReplayByName(heard, before);
      var n :| ReplayName(OfName(made, n), n in before).None?;
      assert OfName(heard, n) == OfName(made, n);
    }
  }
}
