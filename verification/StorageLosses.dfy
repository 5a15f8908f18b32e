// When a cached network can be lost under threads although it has not expired and nothing limits
// the cache: exactly when another thread, on the word of an earlier reservation, is about to
// remove its name.
module StorageLosses {
  import opened PyDicts
  import opened TempStorage
  import opened StorageThreads
  import StorageFreshness

  function Held(s: State, name: string): Option<Entry> {
    StorageFreshness.Cached(s.store.tables, name)
  }

  // The step adds nothing under the name, sets no limit, and reads no clock past the entry's time.
  predicate Gentle(a: Action, name: string, e: Entry) {
    match a
    case StartAdd(batch) => name !in StorageFreshness.EntriesBy(batch)
    case StartSetMax(limit) => limit <= 0
    case StartExpire(reading) => reading(name) <= e.reservation.expires
    case Continue(now) => now <= e.reservation.expires
    case _ => true
  }

  ghost predicate AllGentle(schedule: seq<(nat, Action)>, name: string, e: Entry) {
    forall i :: 0 <= i < |schedule| ==> Gentle(schedule[i].1, name, e)
  }

  // Whatever a thread is about to cache under the name is the entry, and none is about to evict.
  predicate ThreadAgrees(th: Thread, name: string, e: Entry) {
    match th
    case Adding(batch) =>
      name in StorageFreshness.EntriesBy(batch) ==> StorageFreshness.EntriesBy(batch)[name] == e
    case Caching(n, entry) => n == name ==> entry == e
    case EvictingLocked => false
    case _ => true
  }

  // The entry is cached, is what the base has if it has anything, and there is no limit.
  ghost predicate Settled(s: State, name: string, e: Entry) {
    && Held(s, name) == Some(e)
    && BaseAgrees(s.store.base, name, e)
    && s.store.maxItems <= 0
    && forall tid :: tid in s.threads ==> ThreadAgrees(s.threads[tid], name, e)
  }

  predicate BaseAgrees(base: Option<map<string, Entry>>, name: string, e: Entry) {
    base.Some? && name in base.value ==> base.value[name] == e
  }

  // A thread is about to remove the name, or to check it by a reservation that ends sooner.
  predicate Threatens(th: Thread, name: string, e: Entry) {
    match th
    case Removing(names) => name in names
    case Checking(n, found) => n == name && found.expires < e.reservation.expires
    case _ => false
  }

  ghost predicate Kept(s: State, name: string, e: Entry) {
    Settled(s, name, e) && forall tid :: tid in s.threads ==> !Threatens(s.threads[tid], name, e)
  }

  ghost predicate StaysHeld(s: State, name: string, e: Entry) {
    forall schedule :: AllGentle(schedule, name, e) ==> Held(Run(s, schedule), name) == Some(e)
  }

  /* ---------- what every gentle step keeps ---------- */

  lemma {:induction false} ExpiredIs(names: seq<string>, at: map<string, Reservation>, reading: string -> int, name: string)
    requires name in ExpiredAmong(names, at, reading)
    ensures name in at && IsExpired(at[name], reading(name))
  {
    if name in ExpiredAmong(names[..|names| - 1], at, reading) {
      ExpiredIs(names[..|names| - 1], at, reading, name);
    }
  }

  // One thread moves on; the tables and the base still have the entry.
  lemma MoveKept(s: State, s': State, tid: nat, next: Thread, name: string, e: Entry)
    requires Kept(s, name, e)
    requires s'.threads == s.threads[tid := next] && s'.store.maxItems <= 0
    requires Held(s', name) == Some(e) && BaseAgrees(s'.store.base, name, e)
    requires ThreadAgrees(next, name, e) && !Threatens(next, name, e)
    ensures Kept(s', name, e)
  {
  }

  lemma StartKept(s: State, tid: nat, a: Action, name: string, e: Entry)
    requires Kept(s, name, e) && Gentle(a, name, e)
    ensures Kept(Start(s, tid, a), name, e)
  {
    var s' := Start(s, tid, a);
    match a
    case StartAdd(batch) =>
      if batch != [] {
        if s.store.base.Some? {
          StorageFreshness.AddedIs(s.store.base.value, batch);
        }
        MoveKept(s, s', tid, Adding(batch), name, e);
      }
    case StartLookup(n) => if s' != s { MoveKept(s, s', tid, s'.threads[tid], name, e); }
    case StartExpire(reading) =>
      var r := s.store.tables.reservations;
      if name in ExpiredNames(r, reading) {
        ExpiredIs(r.order, r.at, reading, name);
        assert false;
      }
      MoveKept(s, s', tid, Removing(ExpiredNames(r, reading)), name, e);
    case StartSetMax(limit) => MoveKept(s, s', tid, ClearingThreshold(limit), name, e);
    case StartBaseSweep(_) =>
    case Continue(_) =>
  }

  lemma RemovedStays(s: State, s': State, tid: nat, names: seq<string>, name: string, e: Entry)
    requires Kept(s, name, e) && name !in names
    requires s' == At(SetTables(s, RemoveAll(s.store.tables, names)), tid, Idle)
    ensures Kept(s', name, e)
  {
    RemoveAllTables(s.store.tables, names);
    MoveKept(s, s', tid, Idle, name, e);
  }

  lemma NextKept(s: State, tid: nat, now: int, name: string, e: Entry)
    requires Kept(s, name, e) && now <= e.reservation.expires
    ensures Kept(Next(s, tid, now), name, e)
  {
    var s', th := Next(s, tid, now), ThreadOf(s, tid);
    assert ThreadAgrees(th, name, e) && !Threatens(th, name, e);
    match th
    case Idle =>
    case Adding(batch) =>
      StorageFreshness.InsertedIs(s.store.tables, batch, now, name);
      MoveKept(s, s', tid, Evicting, name, e);
    case Removing(names) => RemovedStays(s, s', tid, names, name, e);
    case _ => MoveKept(s, s', tid, ThreadOf(s', tid), name, e);
  }

  lemma {:induction false} RunKept(s: State, schedule: seq<(nat, Action)>, name: string, e: Entry)
    requires Kept(s, name, e) && AllGentle(schedule, name, e)
    ensures Kept(Run(s, schedule), name, e)
  {
    if schedule != [] {
      var front := schedule[..|schedule| - 1];
      var (tid, a) := schedule[|schedule| - 1];
      RunKept(s, front, name, e);
      assert Gentle(schedule[|schedule| - 1].1, name, e);
      if ThreadOf(Run(s, front), tid).Idle? {
        StartKept(Run(s, front), tid, a, name, e);
      } else if a.Continue? {
        NextKept(Run(s, front), tid, a.now, name, e);
      }
    }
  }

  /* ---------- what a threat does ---------- */

  lemma RemovingLoses(s: State, tid: nat, name: string, now: int)
    requires ThreadOf(s, tid).Removing? && name in ThreadOf(s, tid).names
    ensures var s' := Act(s, tid, Continue(now));
      Held(s', name) == None && name !in s'.store.tables.reservations.at && s'.store.base == s.store.base
  {
    RemoveAllTables(s.store.tables, ThreadOf(s, tid).names);
  }

  // A thread that threatens a name goes on to remove it, and with no base the network is lost.
  lemma ThreatLoses(s: State, tid: nat, name: string, e: Entry) returns (schedule: seq<(nat, Action)>)
    requires tid in s.threads && Threatens(s.threads[tid], name, e)
    ensures AllGentle(schedule, name, e)
    ensures var s' := Run(s, schedule);
      && Held(s', name) == None
      && (s.store.base.None? ==> forall now :: LookupStep(s'.store, name, now, now, now).answer == None)
  {
    var go := (tid, Continue(e.reservation.expires));
    assert Run(s, []) == s;
    RunSnoc(s, [], go);
    if s.threads[tid].Removing? {
      RemovingLoses(s, tid, name, go.1.now);
      schedule := [] + [go];
    } else {
      var s1 := Act(s, tid, go.1);
      assert ThreadOf(s1, tid) == Removing([name]);
      RemovingLoses(s1, tid, name, go.1.now);
      RunSnoc(s, [] + [go], go);
      schedule := [] + [go] + [go];
    }
  }

  // An entry that is cached stays so, on every schedule that adds nothing under its name, sets no
  // limit and does not reach its time, exactly when no thread threatens the name.
  lemma StaysHeldExactly(s: State, name: string, e: Entry)
    requires Settled(s, name, e)
    ensures StaysHeld(s, name, e) <==> forall tid :: tid in s.threads ==> !Threatens(s.threads[tid], name, e)
  {
    if forall tid :: tid in s.threads ==> !Threatens(s.threads[tid], name, e) {
      forall schedule | AllGentle(schedule, name, e)
        ensures Held(Run(s, schedule), name) == Some(e)
      {
        RunKept(s, schedule, name, e);
      }
    } else {
      var tid :| tid in s.threads && Threatens(s.threads[tid], name, e);
      var schedule := ThreatLoses(s, tid, name, e);
      assert Held(Run(s, schedule), name) != Some(e);
    }
  }

  /* ---------- a network that is lost ---------- */

  function Item(expires: int): (Reservation, Spec) {
    (Reservation("a", expires), Spec("", 0))
  }

  function ReadsSix(name: string): int {
    6
  }

  function ItemTables(t: Tables, expires: int, now: int): Tables {
    Insert(t, "a", EntryOf(Item(expires)), now)
  }

  // An addition of one item, from start to end, where there is no base and no limit.
  lemma AddedAlone(s: State, tid: nat, expires: int, now: int, schedule: seq<(nat, Action)>)
    returns (longer: seq<(nat, Action)>)
    requires Run(Begin(None), schedule) == s && s.store.base == None && s.store.maxItems <= 0
    requires ThreadOf(s, tid) == Idle
    ensures var s' := Run(Begin(None), longer);
      && s'.store == s.store.(tables := ItemTables(s.store.tables, expires, now))
      && s'.threads == s.threads[tid := Idle]
  {
    var batch := [Item(expires)];
    assert batch[..0] == [];
    RunSnoc(Begin(None), schedule, (tid, StartAdd(batch)));
    var a := schedule + [(tid, StartAdd(batch))];
    RunSnoc(Begin(None), a, (tid, Continue(now)));
    var b := a + [(tid, Continue(now))];
    assert InsertAll(s.store.tables, batch, now) == ItemTables(s.store.tables, expires, now);
    assert ThreadOf(Run(Begin(None), b), tid) == Evicting;
    RunSnoc(Begin(None), b, (tid, Continue(now)));
    longer := b + [(tid, Continue(now))];
    assert s.threads[tid := Adding(batch)][tid := Evicting][tid := Idle] == s.threads[tid := Idle];
  }

  // An entry that ends at 5 is added, and found expired at 6 but not yet removed.
  predicate FoundExpired(s: State) {
    && s.store == Fresh(None).(tables := ItemTables(NoTables, 5, 1))
    && s.threads.Keys == {0, 1} && s.threads[0] == Idle
    && s.threads[1].Removing? && "a" in s.threads[1].names
  }

  lemma FindsExpired() returns (schedule: seq<(nat, Action)>)
    ensures FoundExpired(Run(Begin(None), schedule))
  {
    var s0 := Begin(None);
    assert Run(s0, []) == s0;
    var a := AddedAlone(s0, 0, 5, 1, []);
    RunSnoc(s0, a, (1, StartExpire(ReadsSix)));
    schedule := a + [(1, StartExpire(ReadsSix))];
    assert ItemTables(NoTables, 5, 1).reservations.order == ["a"];
    OneExpired(ItemTables(NoTables, 5, 1).reservations.at);
  }

  // Before it is removed the name is added again, to last until 100; then it is removed.
  lemma AddedAgainAndLost() returns (schedule: seq<(nat, Action)>)
    ensures var before := Run(Begin(None), schedule);
      && Settled(before, "a", EntryOf(Item(100)))
      && (exists tid :: tid in before.threads && Threatens(before.threads[tid], "a", EntryOf(Item(100))))
  {
    var found := FindsExpired();
    schedule := AddedAlone(Run(Begin(None), found), 0, 100, 7, found);
    AgainIs(Run(Begin(None), found), Run(Begin(None), schedule));
  }

  lemma AgainIs(s: State, s': State)
    requires FoundExpired(s) && s'.threads == s.threads[0 := Idle]
    requires s'.store == s.store.(tables := ItemTables(s.store.tables, 100, 7))
    ensures Settled(s', "a", EntryOf(Item(100))) && Threatens(s'.threads[1], "a", EntryOf(Item(100)))
  {
  }

  lemma OneExpired(at: map<string, Reservation>)
    requires "a" in at && at["a"].expires == 5
    ensures "a" in ExpiredAmong(["a"], at, ReadsSix)
  {
    assert ["a"][..0] == [];
  }
}
