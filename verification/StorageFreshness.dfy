// When the cache of the temporary storage is up to date under threads: exactly when no addition
// overtakes another thread that is about to cache an older entry of the same name.
module StorageFreshness {
  import opened PyDicts
  import opened TempStorage
  import opened TempStorageRuns
  import opened StorageBounds
  import opened StorageThreads

  // What a batch leaves under each of its names: the last entry wins.
  function EntriesBy(batch: Batch): map<string, Entry> {
    AddToBase(map[], batch)
  }

  predicate Adds(th: Thread, name: string) {
    th.Adding? && name in EntriesBy(th.batch)
  }

  ghost predicate BeingAdded(threads: map<nat, Thread>, name: string) {
    exists tid :: tid in threads && Adds(threads[tid], name)
  }

  // Every cached pair is the entry last added under its name, or that name is being added.
  ghost predicate CacheIsLatest(s: State) {
    forall n :: Cached(s.store.tables, n).Some? && !BeingAdded(s.threads, n) ==> IsLatest(s, n)
  }

  predicate IsLatest(s: State, name: string) {
    name in s.latest && Cached(s.store.tables, name) == Some(s.latest[name])
  }

  // What a thread is about to put in the cache is the latest.
  ghost predicate ThreadIsLatest(th: Thread, latest: map<string, Entry>) {
    match th
    case Adding(batch) => forall n :: n in EntriesBy(batch) ==> n in latest && latest[n] == EntriesBy(batch)[n]
    case Caching(name, entry) => name in latest && latest[name] == entry
    case _ => true
  }

  ghost predicate ThreadsAreLatest(threads: map<nat, Thread>, latest: map<string, Entry>) {
    forall tid :: tid in threads ==> ThreadIsLatest(threads[tid], latest)
  }

  ghost predicate BaseIsLatest(base: Option<map<string, Entry>>, latest: map<string, Entry>) {
    base.Some? ==> forall n :: n in base.value ==> n in latest && base.value[n] == latest[n]
  }

  ghost predicate UpToDate(s: State) {
    CacheIsLatest(s) && ThreadsAreLatest(s.threads, s.latest) && BaseIsLatest(s.store.base, s.latest)
  }

  // A thread is about to cache, under one of the names of the batch, another entry than the batch's.
  ghost predicate Overtaken(th: Thread, batch: Batch) {
    match th
    case Adding(older) => exists n :: n in EntriesBy(older) && n in EntriesBy(batch) && Differs(older, batch, n)
    case Caching(name, entry) => name in EntriesBy(batch) && EntriesBy(batch)[name] != entry
    case _ => false
  }

  predicate Differs(older: Batch, batch: Batch, name: string)
    requires name in EntriesBy(older) && name in EntriesBy(batch)
  {
    EntriesBy(older)[name] != EntriesBy(batch)[name]
  }

  ghost predicate Overtakes(s: State, batch: Batch) {
    exists tid :: tid in s.threads && Overtaken(s.threads[tid], batch)
  }

  // The step is no addition that overtakes anyone.
  ghost predicate InOrder(s: State, tid: nat, a: Action) {
    a.StartAdd? && ThreadOf(s, tid).Idle? ==> !Overtakes(s, a.batch)
  }

  ghost predicate AllInOrder(s: State, schedule: seq<(nat, Action)>) {
    schedule == [] ||
    (var front, last := schedule[..|schedule| - 1], schedule[|schedule| - 1];
     AllInOrder(s, front) && InOrder(Run(s, front), last.0, last.1))
  }

  /* ---------- additions ---------- */

  lemma {:induction false} AddedIs(base: map<string, Entry>, batch: Batch)
    ensures AddToBase(base, batch) == base + EntriesBy(batch)
  {
    if batch == [] {
      assert base + map[] == base;
    } else {
      AddedIs(base, batch[..|batch| - 1]);
      AddedIs(map[], batch[..|batch| - 1]);
    }
  }

  // What the tables hold under a name, as one entry.
  function Cached(t: Tables, name: string): Option<Entry> {
    if name in t.reservations.at && name in t.agents then Some(Entry(t.reservations.at[name], t.agents[name])) else None
  }

  // After the locked block of an addition the cache holds the batch's entries and otherwise
  // what it held.
  lemma {:induction false} InsertedIs(t: Tables, batch: Batch, now: int, name: string)
    ensures Cached(InsertAll(t, batch, now), name) ==
      if name in EntriesBy(batch) then Some(EntriesBy(batch)[name]) else Cached(t, name)
  {
    if batch != [] {
      InsertedIs(t, batch[..|batch| - 1], now, name);
    }
  }

  lemma StillLatest(th: Thread, latest: map<string, Entry>, batch: Batch)
    requires ThreadIsLatest(th, latest) && !Overtaken(th, batch)
    ensures ThreadIsLatest(th, latest + EntriesBy(batch))
  {
    if th.Adding? {
      forall n | n in EntriesBy(th.batch)
        ensures n in latest + EntriesBy(batch) && (latest + EntriesBy(batch))[n] == EntriesBy(th.batch)[n]
      {
        assert n in EntriesBy(batch) ==> !Differs(th.batch, batch, n);
      }
    }
  }

  lemma StartAddUpToDate(s: State, tid: nat, batch: Batch)
    requires UpToDate(s) && ThreadOf(s, tid).Idle? && batch != [] && !Overtakes(s, batch)
    ensures UpToDate(Start(s, tid, StartAdd(batch)))
  {
    var s' := Start(s, tid, StartAdd(batch));
    AddedIs(s.latest, batch);
    if s.store.base.Some? {
      AddedIs(s.store.base.value, batch);
    }
    forall u | u in s'.threads
      ensures ThreadIsLatest(s'.threads[u], s'.latest)
    {
      if u != tid {
        StillLatest(s.threads[u], s.latest, batch);
      }
    }
    forall n | Cached(s'.store.tables, n).Some? && !BeingAdded(s'.threads, n)
      ensures IsLatest(s', n)
    {
      assert s'.threads[tid] == Adding(batch);
      assert !Adds(s'.threads[tid], n);
      StillAdded(s.threads, tid, Adding(batch), n);
      assert IsLatest(s, n);
    }
  }

  // A thread that was adding nothing does not count.
  lemma StillAdded(threads: map<nat, Thread>, tid: nat, next: Thread, name: string)
    requires tid in threads ==> !Adds(threads[tid], name)
    ensures BeingAdded(threads, name) ==> BeingAdded(threads[tid := next], name)
  {
    if BeingAdded(threads, name) {
      var u :| u in threads && Adds(threads[u], name);
      assert Adds(threads[tid := next][u], name);
    }
  }

  /* ---------- the other steps ---------- */

  // Cached pairs are fewer or are latest themselves, and no thread stopped adding.
  lemma MoveUpToDate(s: State, s': State, tid: nat, next: Thread)
    requires UpToDate(s) && !ThreadOf(s, tid).Adding?
    requires s'.latest == s.latest && s'.threads == s.threads[tid := next] && s'.store.base == s.store.base
    requires ThreadIsLatest(next, s.latest)
    requires forall n :: Cached(s'.store.tables, n).Some? ==>
      IsLatest(s', n) || Cached(s'.store.tables, n) == Cached(s.store.tables, n)
    ensures UpToDate(s')
  {
    forall n | Cached(s'.store.tables, n).Some? && !BeingAdded(s'.threads, n)
      ensures IsLatest(s', n)
    {
      StillAdded(s.threads, tid, next, n);
    }
  }

  lemma AddingUpToDate(s: State, tid: nat, now: int)
    requires UpToDate(s) && ThreadOf(s, tid).Adding?
    ensures UpToDate(Next(s, tid, now))
  {
    var s', batch := Next(s, tid, now), s.threads[tid].batch;
    assert ThreadIsLatest(Adding(batch), s.latest);
    forall n | Cached(s'.store.tables, n).Some? && !BeingAdded(s'.threads, n)
      ensures IsLatest(s', n)
    {
      InsertedIs(s.store.tables, batch, now, n);
      if n !in EntriesBy(batch) {
        StillAdded(s.threads, tid, Evicting, n);
        assert IsLatest(s, n);
      }
    }
  }

  lemma RemovingUpToDate(s: State, s': State, tid: nat, names: seq<string>)
    requires UpToDate(s) && !ThreadOf(s, tid).Adding?
    requires s' == At(SetTables(s, RemoveAll(s.store.tables, names)), tid, Idle)
    ensures UpToDate(s')
  {
    RemoveAllTables(s.store.tables, names);
    MoveUpToDate(s, s', tid, Idle);
  }

  lemma CachingUpToDate(s: State, tid: nat, now: int)
    requires UpToDate(s) && ThreadOf(s, tid).Caching?
    ensures UpToDate(Next(s, tid, now))
  {
    var th := s.threads[tid];
    assert ThreadIsLatest(th, s.latest);
    MoveUpToDate(s, Next(s, tid, now), tid, ThreadOf(Next(s, tid, now), tid));
  }

  lemma NextUpToDate(s: State, tid: nat, now: int)
    requires UpToDate(s)
    ensures UpToDate(Next(s, tid, now))
  {
    var s' := Next(s, tid, now);
    match ThreadOf(s, tid)
    case Adding(batch) => AddingUpToDate(s, tid, now);
    case EvictingLocked =>
      RemovingUpToDate(s, s', tid, Victims(s.store.tables, s.store.maxItems, s.store.threshold));
    case Removing(names) => RemovingUpToDate(s, s', tid, names);
    case Caching(name, entry) => CachingUpToDate(s, tid, now);
    case Idle =>
    case _ => MoveUpToDate(s, s', tid, ThreadOf(s', tid));
  }

  lemma StartUpToDate(s: State, tid: nat, a: Action)
    requires UpToDate(s) && ThreadOf(s, tid).Idle? && InOrder(s, tid, a)
    ensures UpToDate(Start(s, tid, a))
  {
    var s' := Start(s, tid, a);
    match a
    case StartAdd(batch) => if batch != [] { StartAddUpToDate(s, tid, batch); }
    case StartBaseSweep(_) => assert forall n :: IsLatest(s, n) ==> IsLatest(s', n);
    case Continue(_) =>
    case _ => if s' != s { MoveUpToDate(s, s', tid, s'.threads[tid]); }
  }

  lemma ActUpToDate(s: State, tid: nat, a: Action)
    requires UpToDate(s) && InOrder(s, tid, a)
    ensures UpToDate(Act(s, tid, a))
  {
    if ThreadOf(s, tid).Idle? {
      StartUpToDate(s, tid, a);
    } else if a.Continue? {
      NextUpToDate(s, tid, a.now);
    }
  }

  // In every schedule without such overtaking, every cached pair is the entry last added under
  // its name, unless that name is just being added.
  lemma {:induction false} InOrderUpToDate(s: State, schedule: seq<(nat, Action)>)
    requires UpToDate(s) && AllInOrder(s, schedule)
    ensures UpToDate(Run(s, schedule))
  {
    if schedule != [] {
      var front, last := schedule[..|schedule| - 1], schedule[|schedule| - 1];
      InOrderUpToDate(s, front);
      ActUpToDate(Run(s, front), last.0, last.1);
    }
  }

  lemma BeginsUpToDate(base: Option<map<string, Entry>>)
    ensures UpToDate(Begin(base))
  {
  }

  lemma InOrderFromStart(base: Option<map<string, Entry>>, schedule: seq<(nat, Action)>)
    requires AllInOrder(Begin(base), schedule)
    ensures CacheIsLatest(Run(Begin(base), schedule))
  {
    BeginsUpToDate(base);
    InOrderUpToDate(Begin(base), schedule);
  }

  /* ---------- the condition is exact ---------- */

  ghost predicate NoAdditions(schedule: seq<(nat, Action)>) {
    forall i :: 0 <= i < |schedule| ==> !schedule[i].1.StartAdd?
  }

  // However the threads that are running are scheduled, and whatever else but additions is
  // started, the cache is up to date.
  ghost predicate StaysLatest(s: State) {
    forall schedule :: NoAdditions(schedule) ==> CacheIsLatest(Run(s, schedule))
  }

  lemma {:induction false} NoAdditionsInOrder(s: State, schedule: seq<(nat, Action)>)
    requires NoAdditions(schedule)
    ensures AllInOrder(s, schedule)
  {
    if schedule != [] {
      NoAdditionsInOrder(s, schedule[..|schedule| - 1]);
    }
  }

  lemma {:induction false} RunFirst(s: State, step: (nat, Action), schedule: seq<(nat, Action)>)
    ensures Run(s, [step] + schedule) == Run(Act(s, step.0, step.1), schedule)
  {
    if schedule == [] {
      assert [step][..0] == [] && [step] + schedule == [step];
    } else {
      var front := schedule[..|schedule| - 1];
      RunFirst(s, step, front);
      assert ([step] + schedule)[..|schedule|] == [step] + front;
    }
  }

  // The threads, but for one, that are adding the name.
  function OthersAdding(s: State, tid: nat, name: string): set<nat> {
    set u | u in s.threads && u != tid && Adds(s.threads[u], name)
  }

  lemma OneAdderLess(s: State, tid: nat, u: nat, name: string, now: int)
    requires u in OthersAdding(s, tid, name)
    ensures var s' := Act(s, u, Continue(now));
      && OthersAdding(s', tid, name) == OthersAdding(s, tid, name) - {u}
      && ThreadOf(s', tid) == ThreadOf(s, tid) && s'.latest == s.latest
  {
  }

  // Every other thread that is adding the name gets its turn first.
  lemma {:induction false} OthersFirst(s: State, tid: nat, name: string, now: int) returns (schedule: seq<(nat, Action)>)
    ensures NoAdditions(schedule)
    ensures var s' := Run(s, schedule);
      OthersAdding(s', tid, name) == {} && ThreadOf(s', tid) == ThreadOf(s, tid) && s'.latest == s.latest
    decreases |OthersAdding(s, tid, name)|
  {
    if OthersAdding(s, tid, name) == {} {
      schedule := [];
    } else {
      var u :| u in OthersAdding(s, tid, name);
      OneAdderLess(s, tid, u, name, now);
      var rest := OthersFirst(Act(s, u, Continue(now)), tid, name, now);
      RunFirst(s, (u, Continue(now)), rest);
      schedule := [(u, Continue(now))] + rest;
    }
  }

  // A thread is about to cache this entry, on a clock that has not passed its time.
  predicate AboutToCache(th: Thread, name: string, e: Entry, now: int) {
    match th
    case Adding(batch) => name in EntriesBy(batch) && EntriesBy(batch)[name] == e
    case Caching(n, entry) => n == name && entry == e && !IsExpired(e.reservation, now)
    case _ => false
  }

  lemma ThenCaches(s: State, tid: nat, name: string, e: Entry, now: int)
    requires AboutToCache(ThreadOf(s, tid), name, e, now) && OthersAdding(s, tid, name) == {}
    ensures var s' := Act(s, tid, Continue(now));
      Cached(s'.store.tables, name) == Some(e) && !BeingAdded(s'.threads, name) && s'.latest == s.latest
  {
    var s' := Act(s, tid, Continue(now));
    if ThreadOf(s, tid).Adding? {
      InsertedIs(s.store.tables, ThreadOf(s, tid).batch, now, name);
    }
    forall u | u in s'.threads
      ensures !Adds(s'.threads[u], name)
    {
      assert u != tid && Adds(s.threads[u], name) ==> u in OthersAdding(s, tid, name);
    }
  }

  // From any state, an addition that overtakes a thread leads to a state in which the cache
  // holds the older entry and no thread is adding the name any more.
  lemma OvertakenCaches(s: State, tid: nat, batch: Batch, u: nat, name: string, e: Entry, now: int)
    returns (schedule: seq<(nat, Action)>)
    requires ThreadOf(s, tid).Idle? && name in EntriesBy(batch) && EntriesBy(batch)[name] != e
    requires AboutToCache(ThreadOf(s, u), name, e, now)
    ensures NoAdditions(schedule)
    ensures var s' := Run(Act(s, tid, StartAdd(batch)), schedule);
      && Cached(s'.store.tables, name) == Some(e) && !BeingAdded(s'.threads, name)
      && name in s'.latest && s'.latest[name] == EntriesBy(batch)[name]
  {
    var s1 := Act(s, tid, StartAdd(batch));
    AddedIs(s.latest, batch);
    assert ThreadOf(s1, u) == ThreadOf(s, u);
    var front := OthersFirst(s1, u, name, now);
    ThenCaches(Run(s1, front), u, name, e, now);
    RunSnoc(s1, front, (u, Continue(now)));
    schedule := front + [(u, Continue(now))];
  }

  // From an up-to-date state, an addition keeps the cache up to date on every schedule exactly
  // when it overtakes no thread.
  lemma StaysLatestExactly(s: State, tid: nat, batch: Batch)
    requires UpToDate(s) && ThreadOf(s, tid).Idle? && batch != []
    ensures StaysLatest(Act(s, tid, StartAdd(batch))) <==> !Overtakes(s, batch)
  {
    var s1 := Act(s, tid, StartAdd(batch));
    if !Overtakes(s, batch) {
      StartAddUpToDate(s, tid, batch);
      forall schedule | NoAdditions(schedule)
        ensures CacheIsLatest(Run(s1, schedule))
      {
        NoAdditionsInOrder(s1, schedule);
        InOrderUpToDate(s1, schedule);
      }
    } else {
      var u :| u in s.threads && Overtaken(s.threads[u], batch);
      var name, e, now := OvertakenHolds(s.threads[u], batch);
      var schedule := OvertakenCaches(s, tid, batch, u, name, e, now);
      assert !IsLatest(Run(s1, schedule), name);
    }
  }

  lemma OvertakenHolds(th: Thread, batch: Batch) returns (name: string, e: Entry, now: int)
    requires Overtaken(th, batch)
    ensures name in EntriesBy(batch) && EntriesBy(batch)[name] != e && AboutToCache(th, name, e, now)
  {
    match th
    case Adding(older) =>
      name :| name in EntriesBy(older) && name in EntriesBy(batch) && Differs(older, batch, name);
      e, now := EntriesBy(older)[name], 0;
    case Caching(n, entry) =>
      name, e, now := n, entry, entry.reservation.expires;
  }
}
