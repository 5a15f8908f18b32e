// The temporary storage as the program runs it: four tables updated and popped in loops.
// Every method is tied to the operation of the same name on values (TempStorage).
module ExpiringStorage {
  import opened PyDicts
  import opened TempStorage

  class ExpiringAgentNetworkStorage {
    var agents: map<string, Network>
    var reservations: Dict<Reservation>
    var accessTimes: Dict<int>
    var sizes: map<string, nat>
    var maxItems: int
    var overflowThreshold: nat
    var base: Option<map<string, Entry>>
    var told: seq<Event>  // what each registered listener has been told so far

    ghost function TablesNow(): Tables
      reads this
    {
      Tables(agents, reservations, accessTimes, sizes)
    }

    ghost function Contents(): Store
      reads this
    {
      Store(TablesNow(), maxItems, overflowThreshold, base)
    }

    ghost predicate Valid()
      reads this
    {
      SameKeys(TablesNow())
    }

    constructor (base: Option<map<string, Entry>>)
      ensures Valid() && Contents() == Fresh(base) && told == []
    {
      agents, sizes := map[], map[];
      reservations, accessTimes := Dict([], map[]), Dict([], map[]);
      maxItems, overflowThreshold := 0, 0;
      this.base, told := base, [];
    }

    method RemoveAgentNetwork(name: string)
      modifies this`agents, this`reservations, this`accessTimes, this`sizes
      ensures TablesNow() == Remove(old(TablesNow()), name)
      ensures old(Valid()) ==> Valid()
    {
      if Valid() {
        RemoveKeeps(TablesNow(), name);
      }
      reservations := reservations.Pop(name);
      agents := agents - {name};
      accessTimes := accessTimes.Pop(name);
      sizes := sizes - {name};
    }

    // The loop that pops a list of names, shared by expiry and eviction.
    method RemoveEach(names: seq<string>)
      modifies this`agents, this`reservations, this`accessTimes, this`sizes
      ensures TablesNow() == RemoveAll(old(TablesNow()), names)
    {
      for i := 0 to |names|
        invariant TablesNow() == RemoveAll(old(TablesNow()), names[..i])
      {
        RemoveAgentNetwork(names[i]);
        assert names[..i + 1][..i] == names[..i];
      }
      assert names[..|names|] == names;
    }

    method Notify(names: seq<string>, change: Change)
      modifies this`told
      ensures told == old(told) + Each(names, change)
    {
      for i := 0 to |names|
        invariant told == old(told) + Each(names[..i], change)
      {
        told := told + [Event(change, names[i])];
        assert names[..i + 1][..i] == names[..i];
      }
      assert names[..|names|] == names;
    }

    method EvictLruAgentNetworks()
      modifies this`agents, this`reservations, this`accessTimes, this`sizes, this`told
      ensures TablesNow() == RemoveAll(old(TablesNow()), Evicted(old(TablesNow()), maxItems, overflowThreshold))
      ensures told == old(told) + Each(Evicted(old(TablesNow()), maxItems, overflowThreshold), Removed)
      ensures old(Valid()) ==> Valid()
    {
      ghost var t := TablesNow();
      EvictedIs(t, maxItems, overflowThreshold);
      assert told + Each([], Removed) == told;
      if maxItems <= 0 {
        return;
      }
      var overflow := |agents| - maxItems;
      if overflow <= overflowThreshold {
        return;
      }
      var sorted := SortByTime(accessTimes.order, accessTimes.at);
      var evicted := sorted[..if overflow <= |sorted| then overflow else |sorted|];
      RemoveAndTell(evicted);
    }

    // The victims are removed under the lock and announced afterwards.
    method RemoveAndTell(names: seq<string>)
      modifies this`agents, this`reservations, this`accessTimes, this`sizes, this`told
      ensures TablesNow() == RemoveAll(old(TablesNow()), names)
      ensures told == old(told) + Each(names, Removed)
    {
      RemoveEach(names);
      Notify(names, Removed);
    }

    method SetMaxAgentNetworks(maxItems: int)
      modifies this
      ensures Contents() == Step(old(Contents()), SetMax(maxItems)).store
      ensures told == old(told) + Step(old(Contents()), SetMax(maxItems)).events
      ensures old(Valid()) ==> Valid()
    {
      this.maxItems := maxItems;
      overflowThreshold := 0;
      if maxItems > 0 {
        overflowThreshold := Threshold(maxItems);
      }
      EvictLruAgentNetworks();
    }

    // The block of add_reservations that runs under the lock.
    method InsertEach(batch: Batch, now: int) returns (added: seq<string>, replaced: seq<string>)
      modifies this`agents, this`reservations, this`accessTimes, this`sizes
      ensures TablesNow() == InsertAll(old(TablesNow()), batch, now)
      ensures added == NamesInBatch(old(TablesNow()), batch, now, true)
      ensures replaced == NamesInBatch(old(TablesNow()), batch, now, false)
    {
      added, replaced := [], [];
      for i := 0 to |batch|
        invariant TablesNow() == InsertAll(old(TablesNow()), batch[..i], now)
        invariant added == NamesInBatch(old(TablesNow()), batch[..i], now, true)
        invariant replaced == NamesInBatch(old(TablesNow()), batch[..i], now, false)
      {
        var (reservation, spec) := batch[i];
        var name := reservation.id;
        var isNew := name !in agents;
        OneInserted(old(TablesNow()), batch, i, now);
        StoreEntry(name, Entry(reservation, Network(name, spec)), now);
        if isNew {
          added := added + [name];
        } else {
          replaced := replaced + [name];
        }
        assert isNew ==> replaced + [] == replaced;
        assert !isNew ==> added + [] == added;
      }
      assert batch[..|batch|] == batch;
    }

    // The four assignments that put one entry in the tables.
    method StoreEntry(name: string, entry: Entry, now: int)
      modifies this`agents, this`reservations, this`accessTimes, this`sizes
      ensures TablesNow() == Insert(old(TablesNow()), name, entry, now)
    {
      agents := agents[name := entry.network];
      reservations := reservations.Put(name, entry.reservation);
      accessTimes := accessTimes.Put(name, now);
      sizes := sizes[name := entry.network.spec.bytes];
    }

    method AddReservations(batch: Batch, now: int)
      modifies this`agents, this`reservations, this`accessTimes, this`sizes, this`base, this`told
      ensures TablesNow() == AddStep(old(Contents()), batch, now).store.tables
      ensures base == AddStep(old(Contents()), batch, now).store.base
      ensures told == old(told) + AddStep(old(Contents()), batch, now).events
      ensures old(Valid()) ==> Valid()
    {
      ghost var s := Contents();
      if Valid() {
        AddKeeps(s, batch, now);
      }
      if batch == [] {
        AddedNothing(s, now);
        assert told + [] == told;
        return;
      }
      AddedFields(s, batch, now);
      AddSome(batch, now);
    }

    method AddSome(batch: Batch, now: int)
      modifies this`agents, this`reservations, this`accessTimes, this`sizes, this`base, this`told
      ensures TablesNow() == AddLocal(old(TablesNow()), maxItems, overflowThreshold, batch, now).0
      ensures base == WrittenThrough(old(base), batch)
      ensures told == old(told) + AddLocal(old(TablesNow()), maxItems, overflowThreshold, batch, now).1
    {
      if base.Some? {
        base := Some(AddToBase(base.value, batch));
      }
      AddLocally(batch, now);
    }

    // What follows the write to the base storage.
    method AddLocally(batch: Batch, now: int)
      modifies this`agents, this`reservations, this`accessTimes, this`sizes, this`told
      ensures TablesNow() == AddLocal(old(TablesNow()), maxItems, overflowThreshold, batch, now).0
      ensures told == old(told) + AddLocal(old(TablesNow()), maxItems, overflowThreshold, batch, now).1
    {
      ghost var before := TablesNow();
      var added, replaced := InsertEach(batch, now);
      Notify(added, Added);
      Notify(replaced, Modified);
      ghost var overfull := TablesNow();
      EvictLruAgentNetworks();
      ghost var evicted := Evicted(overfull, maxItems, overflowThreshold);
      Regroup(old(told), Each(added, Added), Each(replaced, Modified));
      Regroup(old(told), Each(added, Added) + Each(replaced, Modified), Each(evicted, Removed));
    }

    // The names whose reservation is past its time, in a snapshot of the reservations table.
    method FindExpired(reading: string -> int) returns (expired: seq<string>)
      ensures expired == ExpiredNames(reservations, reading)
    {
      expired := [];
      var snapshot := reservations;
      for i := 0 to |snapshot.order|
        invariant expired == ExpiredAmong(snapshot.order[..i], snapshot.at, reading)
      {
        var name := snapshot.order[i];
        if name in snapshot.at && IsExpired(snapshot.at[name], reading(name)) {
          expired := expired + [name];
        }
        assert snapshot.order[..i + 1][..i] == snapshot.order[..i];
      }
      assert snapshot.order[..|snapshot.order|] == snapshot.order;
    }

    method ExpireReservations(reading: string -> int)
      modifies this
      ensures Contents() == ExpireStep(old(Contents()), reading).store
      ensures told == old(told) + ExpireStep(old(Contents()), reading).events
      ensures old(Valid()) ==> Valid()
    {
      if Valid() {
        RemoveAllKeeps(TablesNow(), ExpiredNames(reservations, reading));
      }
      var expired := FindExpired(reading);
      if |expired| == 0 {
        return;
      }
      RemoveEach(expired);
      Notify(expired, Removed);
    }

    // Caches what the base returned, tells the listeners, and evicts if that was one too many.
    method CacheFromBase(name: string, entry: Entry, now: int)
      modifies this`agents, this`reservations, this`accessTimes, this`sizes, this`told
      ensures TablesNow() == Evict(Cached(old(Contents()), name, entry, now)).store.tables
      ensures told == old(told) + [Event(Added, name)] + Evict(Cached(old(Contents()), name, entry, now)).events
    {
      StoreEntry(name, entry, now);
      told := told + [Event(Added, name)];
      EvictLruAgentNetworks();
    }

    method GetAgentNetworkProvider(name: string, first: int, second: int, last: int)
      returns (provider: Option<Network>)
      modifies this`agents, this`reservations, this`accessTimes, this`sizes, this`told
      ensures provider == LookupStep(old(Contents()), name, first, second, last).answer
      ensures TablesNow() == LookupStep(old(Contents()), name, first, second, last).store.tables
      ensures told == old(told) + LookupStep(old(Contents()), name, first, second, last).events
      ensures old(Valid()) ==> Valid()
    {
      if Valid() {
        LookupKeeps(Contents(), name, first, second, last);
      }
      if name in reservations.at {
        if IsExpired(reservations.at[name], first) {
          RemoveAgentNetwork(name);
          told := told + [Event(Removed, name)];
          return None;
        }
        if name in agents {
          accessTimes := accessTimes.Put(name, last);
          return Some(agents[name]);
        }
        return None;
      }
      if base.Some? {
        var found := FromBase(base.value, name, first);
        if found.Some? && !IsExpired(found.value.reservation, second) {
          ghost var overfull := Insert(TablesNow(), name, found.value, last);
          CacheFromBase(name, found.value, last);
          Regroup(old(told), [Event(Added, name)], Each(Evicted(overfull, maxItems, overflowThreshold), Removed));
          return Some(found.value.network);
        }
      }
      return None;
    }
  }

  lemma EvictedIs(t: Tables, maxItems: int, threshold: nat)
    ensures var evicted, overflow := Evicted(t, maxItems, threshold), |t.agents| - maxItems;
      var sorted := SortByTime(t.access.order, t.access.at);
      && (maxItems <= 0 || overflow <= threshold ==> evicted == [] && RemoveAll(t, evicted) == t)
      && (maxItems > 0 && overflow > threshold ==>
            evicted == sorted[..if overflow <= |sorted| then overflow else |sorted|])
    ensures SameKeys(t) ==> SameKeys(RemoveAll(t, Evicted(t, maxItems, threshold)))
  {
    if SameKeys(t) {
      RemoveAllKeeps(t, Evicted(t, maxItems, threshold));
    }
  }

  // What the i-th item of a batch adds to what those before it made.
  lemma OneInserted(t: Tables, batch: Batch, i: nat, now: int)
    requires i < |batch|
    ensures var sofar, item := InsertAll(t, batch[..i], now), batch[i];
      && InsertAll(t, batch[..i + 1], now) == Insert(sofar, item.0.id, EntryOf(item), now)
      && (forall isNew :: NamesInBatch(t, batch[..i + 1], now, isNew) ==
            NamesInBatch(t, batch[..i], now, isNew) + if (item.0.id !in sofar.agents) == isNew then [item.0.id] else [])
  {
    assert batch[..i + 1][..i] == batch[..i];
  }

  lemma AddedNothing(s: Store, now: int)
    ensures AddStep(s, [], now) == Outcome(s, None, [])
  {
  }

  lemma AddedFields(s: Store, batch: Batch, now: int)
    requires batch != []
    ensures var o, local := AddStep(s, batch, now), AddLocal(s.tables, s.maxItems, s.threshold, batch, now);
      o.store.tables == local.0 && o.events == local.1 && o.store.base == WrittenThrough(s.base, batch)
  {
  }
}
