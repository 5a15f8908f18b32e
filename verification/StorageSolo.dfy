// A thread that runs a method to its end while the others stand still does exactly what the
// operation does: the interleaved steps refine the sequential specification.
module StorageSolo {
  import opened PyDicts
  import opened TempStorage
  import opened StorageThreads

  function StartOf(op: Op): Action {
    match op
    case Add(batch, _) => StartAdd(batch)
    case Lookup(name, _, _, _) => StartLookup(name)
    case Expire(reading, _, _) => StartExpire(reading)
    case SetMax(maxItems) => StartSetMax(maxItems)
    case BaseSweep(now) => StartBaseSweep(now)
  }

  // The clock as the next two steps and the two after them read it.
  function ReadingsOf(op: Op, cached: bool): (int, int, int) {
    match op
    case Add(_, now) => (now, now, now)
    case Lookup(_, first, second, last) => (first, if cached then first else second, last)
    case _ => (0, 0, 0)
  }

  // No method takes more than four steps after it was started, and a step of an idle thread is none.
  function Continued(s: State, tid: nat, readings: (int, int, int)): State {
    var s2 := Act(Act(s, tid, Continue(readings.0)), tid, Continue(readings.1));
    Act(Act(s2, tid, Continue(readings.2)), tid, Continue(readings.2))
  }

  // The whole method.
  function Alone(s: State, tid: nat, op: Op): State {
    Continued(Act(s, tid, StartOf(op)), tid, ReadingsOf(op, op.Lookup? && op.name in s.store.tables.reservations.at))
  }

  // A fetched entry is checked and stamped in one step of a thread.
  predicate OneReading(s: Store, op: Op) {
    op.Lookup? && op.name !in s.tables.reservations.at ==> op.second == op.last
  }

  ghost predicate DoesAs(s: State, s': State, tid: nat, op: Op) {
    var o := Step(s.store, op);
    && s'.store == o.store
    && s'.handedOut == s.handedOut + (if op.Lookup? && o.answer.Some? then [(op.name, o.answer.value)] else [])
    && ThreadOf(s', tid).Idle?
    && forall other :: other != tid ==> ThreadOf(s', other) == ThreadOf(s, other)
  }

  lemma EvictedAlone(s: State, tid: nat, now: int)
    requires ThreadOf(s, tid).Evicting?
    ensures var s' := Act(Act(s, tid, Continue(now)), tid, Continue(now));
      && s'.store == Evict(s.store).store && s'.handedOut == s.handedOut && ThreadOf(s', tid).Idle?
      && forall other :: other != tid ==> ThreadOf(s', other) == ThreadOf(s, other)
  {
  }

  lemma AddAlone(s: State, tid: nat, batch: Batch, now: int)
    requires ThreadOf(s, tid).Idle?
    ensures DoesAs(s, Alone(s, tid, Add(batch, now)), tid, Add(batch, now))
  {
    var s0 := Act(s, tid, StartAdd(batch));
    assert s.handedOut + [] == s.handedOut;
    if batch != [] {
      var s1 := Act(s0, tid, Continue(now));
      EvictedAlone(s1, tid, now);
    }
  }

  lemma CachedAlone(s: State, tid: nat, op: Op)
    requires ThreadOf(s, tid).Idle? && op.Lookup? && op.name in s.store.tables.reservations.at
    ensures DoesAs(s, Alone(s, tid, op), tid, op)
  {
    assert s.handedOut + [] == s.handedOut;
    var s1 := Act(Act(s, tid, StartLookup(op.name)), tid, Continue(op.first));
    if IsExpired(s.store.tables.reservations.at[op.name], op.first) {
      var t := s.store.tables;
      assert [op.name][..0] == [];
      assert RemoveAll(t, [op.name]) == Remove(t, op.name);
    }
  }

  // The base is asked, and what it returns is cached.
  lemma Fetches(s: State, tid: nat, op: Op)
    requires ThreadOf(s, tid).Idle? && op.Lookup? && op.name !in s.store.tables.reservations.at && op.second == op.last
    ensures var s2 := Act(Act(Act(s, tid, StartOf(op)), tid, Continue(op.first)), tid, Continue(op.second));
      && (forall other :: other != tid ==> ThreadOf(s2, other) == ThreadOf(s, other))
      && (if s.store.base.Some? && FromBase(s.store.base.value, op.name, op.first).Some?
             && !IsExpired(s.store.base.value[op.name].reservation, op.second)
          then
            && ThreadOf(s2, tid).Evicting?
            && s2.store == Cached(s.store, op.name, s.store.base.value[op.name], op.last)
            && s2.handedOut == s.handedOut + [(op.name, s.store.base.value[op.name].network)]
          else ThreadOf(s2, tid).Idle? && s2.store == s.store && s2.handedOut == s.handedOut)
  {
  }

  lemma FetchedAlone(s: State, tid: nat, op: Op)
    requires ThreadOf(s, tid).Idle? && op.Lookup? && op.name !in s.store.tables.reservations.at && op.second == op.last
    ensures DoesAs(s, Alone(s, tid, op), tid, op)
  {
    assert s.handedOut + [] == s.handedOut;
    Fetches(s, tid, op);
    var s2 := Act(Act(Act(s, tid, StartOf(op)), tid, Continue(op.first)), tid, Continue(op.second));
    FinishesAlone(s2, tid, op.last);
  }

  lemma FinishesAlone(s: State, tid: nat, now: int)
    requires ThreadOf(s, tid).Evicting? || ThreadOf(s, tid).Idle?
    ensures var s' := Act(Act(s, tid, Continue(now)), tid, Continue(now));
      && s'.store == (if ThreadOf(s, tid).Evicting? then Evict(s.store).store else s.store)
      && s'.handedOut == s.handedOut && ThreadOf(s', tid).Idle?
      && forall other :: other != tid ==> ThreadOf(s', other) == ThreadOf(s, other)
  {
    if ThreadOf(s, tid).Evicting? {
      EvictedAlone(s, tid, now);
    }
  }

  lemma ExpireAlone(s: State, tid: nat, op: Op)
    requires ThreadOf(s, tid).Idle? && op.Expire?
    ensures DoesAs(s, Alone(s, tid, op), tid, op)
  {
    assert s.handedOut + [] == s.handedOut;
  }

  lemma SetMaxAlone(s: State, tid: nat, op: Op)
    requires ThreadOf(s, tid).Idle? && op.SetMax?
    ensures DoesAs(s, Alone(s, tid, op), tid, op)
  {
    assert s.handedOut + [] == s.handedOut;
    var s2 := Act(Act(Act(s, tid, StartOf(op)), tid, Continue(0)), tid, Continue(0));
    EvictedAlone(s2, tid, 0);
  }

  // From any state, whatever the other threads are in the middle of: the tables, the base and the
  // answer are those of the operation, and the thread is done.
  lemma AloneRefines(s: State, tid: nat, op: Op)
    requires ThreadOf(s, tid).Idle? && OneReading(s.store, op)
    ensures DoesAs(s, Alone(s, tid, op), tid, op)
  {
    match op
    case Add(batch, now) => AddAlone(s, tid, batch, now);
    case Lookup(name, _, _, _) =>
      if name in s.store.tables.reservations.at {
        CachedAlone(s, tid, op);
      } else {
        FetchedAlone(s, tid, op);
      }
    case Expire(_, _, _) => ExpireAlone(s, tid, op);
    case SetMax(_) => SetMaxAlone(s, tid, op);
    case BaseSweep(_) => assert s.handedOut + [] == s.handedOut;
  }
}
