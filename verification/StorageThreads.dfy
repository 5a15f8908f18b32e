// The temporary storage under any number of threads.  Each block under the lock, each
// unlocked read of a shared table and each call into the base storage is one atomic step;
// between two steps of one thread any other thread may run.
module StorageThreads {
  import opened PyDicts
  import opened TempStorage
  import opened TempStorageRuns
  import opened StorageBounds

  // Where a thread stands inside the method it is running, with what it has read so far.
  datatype Thread =
    | Idle
    | Adding(batch: Batch)                        // base written, about to take the lock
    | Evicting                                    // about to look at the limit
    | EvictingLocked                              // saw a limit, about to take the lock
    | Removing(names: seq<string>)                // about to take the lock
    | Checking(name: string, found: Reservation)  // read a reservation, about to check it
    | ReadingAgent(name: string)
    | Touching(name: string, network: Network)
    | AskingBase(name: string)
    | Caching(name: string, entry: Entry)         // the base returned this
    | ClearingThreshold(limit: int)
    | SettingThreshold(limit: int)

  datatype State = State(
    store: Store,
    threads: map<nat, Thread>,
    published: set<(string, Entry)>,     // every entry ever added, or first found in the base
    latest: map<string, Entry>,          // the entry last added under each name
    handedOut: seq<(string, Network)>,   // every network a lookup has returned
    lateTouches: set<string>)            // names stamped after their entry was gone

  datatype Action =
    | StartAdd(batch: Batch)
    | StartLookup(name: string)
    | StartExpire(reading: string -> int)
    | StartSetMax(limit: int)
    | StartBaseSweep(sweep: int)
    | Continue(now: int)

  function ThreadOf(s: State, tid: nat): Thread {
    if tid in s.threads then s.threads[tid] else Idle
  }

  function At(s: State, tid: nat, next: Thread): State {
    s.(threads := s.threads[tid := next])
  }

  function SetTables(s: State, t: Tables): State {
    s.(store := s.store.(tables := t))
  }

  function EntriesOf(batch: Batch): set<(string, Entry)> {
    set item | item in batch :: (item.0.id, EntryOf(item))
  }

  function Start(s: State, tid: nat, a: Action): State {
    match a
    case StartAdd(batch) =>
      if batch == [] then s
      else
        At(s.(store := s.store.(base := WrittenThrough(s.store.base, batch)),
              published := s.published + EntriesOf(batch),
              latest := AddToBase(s.latest, batch)), tid, Adding(batch))
    case StartLookup(name) =>
      if name in s.store.tables.reservations.at then
        At(s, tid, Checking(name, s.store.tables.reservations.at[name]))
      else if s.store.base.Some? then At(s, tid, AskingBase(name)) else s
    case StartExpire(reading) =>
      At(s, tid, Removing(ExpiredNames(s.store.tables.reservations, reading)))
    case StartSetMax(limit) =>
      At(s.(store := s.store.(maxItems := limit)), tid, ClearingThreshold(limit))
    case StartBaseSweep(sweep) =>
      s.(store := s.store.(base := if s.store.base.Some? then Some(Sweep(s.store.base.value, sweep)) else None))
    case Continue(_) => s
  }

  function Next(s: State, tid: nat, now: int): State {
    var t := s.store.tables;
    match ThreadOf(s, tid)
    case Idle => s
    case Adding(batch) => At(SetTables(s, InsertAll(t, batch, now)), tid, Evicting)
    case Evicting => At(s, tid, if s.store.maxItems <= 0 then Idle else EvictingLocked)
    case EvictingLocked =>
      At(SetTables(s, RemoveAll(t, Victims(t, s.store.maxItems, s.store.threshold))), tid, Idle)
    case Removing(names) => At(SetTables(s, RemoveAll(t, names)), tid, Idle)
    case Checking(name, found) =>
      At(s, tid, if IsExpired(found, now) then Removing([name]) else ReadingAgent(name))
    case ReadingAgent(name) =>
      At(s, tid, if name in t.agents then Touching(name, t.agents[name]) else Idle)
    case Touching(name, network) =>
      At(SetTables(s, Touch(t, name, now)).(
           handedOut := s.handedOut + [(name, network)],
           lateTouches := if name in t.agents then s.lateTouches else s.lateTouches + {name}), tid, Idle)
    case AskingBase(name) =>
      if s.store.base.None? then At(s, tid, Idle)
      else
        var found := FromBase(s.store.base.value, name, now);
        At(s, tid, if found.Some? then Caching(name, found.value) else Idle)
    case Caching(name, entry) =>
      if IsExpired(entry.reservation, now) then At(s, tid, Idle)
      else
        At(SetTables(s, Insert(t, name, entry, now)).(
             handedOut := s.handedOut + [(name, entry.network)]), tid, Evicting)
    case ClearingThreshold(limit) =>
      At(s.(store := s.store.(threshold := 0)), tid, SettingThreshold(limit))
    case SettingThreshold(limit) =>
      At(s.(store := s.store.(threshold := if limit > 0 then Threshold(limit) else s.store.threshold)), tid, Evicting)
  }

  // A thread starts a method only when it is running none; otherwise it takes its next step.
  function Act(s: State, tid: nat, a: Action): State {
    if ThreadOf(s, tid).Idle? then Start(s, tid, a)
    else if a.Continue? then Next(s, tid, a.now)
    else s
  }

  function Run(s: State, schedule: seq<(nat, Action)>): State {
    if schedule == [] then s
    else
      var (tid, a) := schedule[|schedule| - 1];
      Act(Run(s, schedule[..|schedule| - 1]), tid, a)
  }

  // No thread is running and nothing is cached; there may be a base storage with entries in it.
  function Begin(base: Option<map<string, Entry>>): State {
    var had := if base.Some? then base.value else map[];
    State(Fresh(base), map[], set n | n in had :: (n, had[n]), had, [], {})
  }

  /* ---------- what every interleaving keeps ---------- */

  // Agents, reservations and sizes have the same names; an access time may outlive its entry,
  // but only through a late touch of that name.
  ghost predicate KeysAgree(t: Tables, late: set<string>) {
    && t.reservations.Valid()
    && t.access.Valid()
    && t.agents.Keys == t.reservations.at.Keys == t.sizes.Keys
    && t.agents.Keys <= t.access.at.Keys <= t.agents.Keys + late
  }

  // Each cached pair of reservation and network was published under that name, as one entry.
  ghost predicate TablesPublished(t: Tables, published: set<(string, Entry)>) {
    forall n :: n in t.reservations.at && n in t.agents ==>
      (n, Entry(t.reservations.at[n], t.agents[n])) in published
  }

  ghost predicate WasPublished(published: set<(string, Entry)>, name: string, network: Network) {
    exists e: Entry :: (name, e) in published && e.network == network
  }

  ghost predicate ThreadPublished(th: Thread, published: set<(string, Entry)>) {
    match th
    case Adding(batch) => EntriesOf(batch) <= published
    case Touching(name, network) => WasPublished(published, name, network)
    case Caching(name, entry) => (name, entry) in published
    case _ => true
  }

  ghost predicate BasePublished(base: Option<map<string, Entry>>, published: set<(string, Entry)>) {
    base.Some? ==> forall n :: n in base.value ==> (n, base.value[n]) in published
  }

  ghost predicate ThreadsPublished(threads: map<nat, Thread>, published: set<(string, Entry)>) {
    forall tid :: tid in threads ==> ThreadPublished(threads[tid], published)
  }

  ghost predicate HandedPublished(handed: seq<(string, Network)>, published: set<(string, Entry)>) {
    forall i :: 0 <= i < |handed| ==> WasPublished(published, handed[i].0, handed[i].1)
  }

  ghost predicate Safe(s: State) {
    && KeysAgree(s.store.tables, s.lateTouches)
    && TablesPublished(s.store.tables, s.published)
    && BasePublished(s.store.base, s.published)
    && ThreadsPublished(s.threads, s.published)
    && HandedPublished(s.handedOut, s.published)
  }

  lemma InsertSafe(t: Tables, late: set<string>, published: set<(string, Entry)>, name: string, e: Entry, now: int)
    requires KeysAgree(t, late) && TablesPublished(t, published) && (name, e) in published
    ensures KeysAgree(Insert(t, name, e, now), late) && TablesPublished(Insert(t, name, e, now), published)
  {
    PutValid(t.reservations, name, e.reservation);
    PutValid(t.access, name, now);
    KeysOfPut(t, name, e, now);
  }

  lemma {:induction false} InsertAllSafe(t: Tables, late: set<string>, published: set<(string, Entry)>, batch: Batch, now: int)
    requires KeysAgree(t, late) && TablesPublished(t, published) && EntriesOf(batch) <= published
    ensures KeysAgree(InsertAll(t, batch, now), late) && TablesPublished(InsertAll(t, batch, now), published)
  {
    if batch != [] {
      var front, last := batch[..|batch| - 1], batch[|batch| - 1];
      assert EntriesOf(front) <= EntriesOf(batch);
      assert (last.0.id, EntryOf(last)) in EntriesOf(batch);
      InsertAllSafe(t, late, published, front, now);
      InsertSafe(InsertAll(t, front, now), late, published, last.0.id, EntryOf(last), now);
    }
  }

  lemma RemoveAllSafe(t: Tables, late: set<string>, published: set<(string, Entry)>, names: seq<string>)
    requires KeysAgree(t, late) && TablesPublished(t, published)
    ensures KeysAgree(RemoveAll(t, names), late) && TablesPublished(RemoveAll(t, names), published)
  {
    RemoveAllValid(t, names);
    RemoveAllTables(t, names);
    assert (t.agents - Elements(names)).Keys == t.agents.Keys - Elements(names);
    assert (t.access.at - Elements(names)).Keys == t.access.at.Keys - Elements(names);
    assert (t.reservations.at - Elements(names)).Keys == t.reservations.at.Keys - Elements(names);
    assert (t.sizes - Elements(names)).Keys == t.sizes.Keys - Elements(names);
  }

  lemma TouchSafe(t: Tables, late: set<string>, name: string, now: int)
    requires KeysAgree(t, late)
    ensures KeysAgree(Touch(t, name, now), if name in t.agents then late else late + {name})
  {
    PutValid(t.access, name, now);
    assert Touch(t, name, now).access.at.Keys == t.access.at.Keys + {name};
  }

  lemma {:induction false} AddPublished(base: map<string, Entry>, batch: Batch, published: set<(string, Entry)>)
    requires forall n :: n in base ==> (n, base[n]) in published
    requires EntriesOf(batch) <= published
    ensures forall n :: n in AddToBase(base, batch) ==> (n, AddToBase(base, batch)[n]) in published
  {
    if batch != [] {
      assert EntriesOf(batch[..|batch| - 1]) <= EntriesOf(batch);
      assert (batch[|batch| - 1].0.id, EntryOf(batch[|batch| - 1])) in EntriesOf(batch);
      AddPublished(base, batch[..|batch| - 1], published);
    }
  }

  lemma Grown(small: set<(string, Entry)>, large: set<(string, Entry)>, name: string, network: Network)
    requires small <= large && WasPublished(small, name, network)
    ensures WasPublished(large, name, network)
  {
    var e: Entry :| (name, e) in small && e.network == network;
    assert (name, e) in large;
  }

  lemma ThreadGrown(th: Thread, small: set<(string, Entry)>, large: set<(string, Entry)>)
    requires small <= large && ThreadPublished(th, small)
    ensures ThreadPublished(th, large)
  {
    if th.Touching? {
      Grown(small, large, th.name, th.network);
    }
  }

  lemma GrowPublished(s: State, published: set<(string, Entry)>)
    requires Safe(s) && s.published <= published
    ensures TablesPublished(s.store.tables, published) && BasePublished(s.store.base, published)
    ensures ThreadsPublished(s.threads, published) && HandedPublished(s.handedOut, published)
  {
    forall tid | tid in s.threads
      ensures ThreadPublished(s.threads[tid], published)
    {
      ThreadGrown(s.threads[tid], s.published, published);
    }
    forall i | 0 <= i < |s.handedOut|
      ensures WasPublished(published, s.handedOut[i].0, s.handedOut[i].1)
    {
      Grown(s.published, published, s.handedOut[i].0, s.handedOut[i].1);
    }
  }

  lemma OneThread(threads: map<nat, Thread>, tid: nat, next: Thread, published: set<(string, Entry)>)
    requires ThreadsPublished(threads, published) && ThreadPublished(next, published)
    ensures ThreadsPublished(threads[tid := next], published)
  {
  }

  lemma StartAddSafe(s: State, tid: nat, batch: Batch)
    requires Safe(s) && batch != []
    ensures Safe(Start(s, tid, StartAdd(batch)))
  {
    var published := s.published + EntriesOf(batch);
    GrowPublished(s, published);
    if s.store.base.Some? {
      AddPublished(s.store.base.value, batch, published);
    }
    OneThread(s.threads, tid, Adding(batch), published);
  }

  lemma StartSafe(s: State, tid: nat, a: Action)
    requires Safe(s)
    ensures Safe(Start(s, tid, a))
  {
    match a
    case StartAdd(batch) => if batch != [] { StartAddSafe(s, tid, batch); }
    case StartLookup(name) =>
      OneThread(s.threads, tid, AskingBase(name), s.published);
      if name in s.store.tables.reservations.at {
        OneThread(s.threads, tid, Checking(name, s.store.tables.reservations.at[name]), s.published);
      }
    case StartExpire(reading) =>
      OneThread(s.threads, tid, Removing(ExpiredNames(s.store.tables.reservations, reading)), s.published);
    case StartSetMax(limit) => OneThread(s.threads, tid, ClearingThreshold(limit), s.published);
    case _ =>
  }

  // One thread moves on, and the tables change to others that are still in order.
  lemma MoveSafe(s: State, s': State, tid: nat, next: Thread)
    requires Safe(s)
    requires s'.published == s.published && s'.store.base == s.store.base && s'.threads == s.threads[tid := next]
    requires KeysAgree(s'.store.tables, s'.lateTouches) && TablesPublished(s'.store.tables, s.published)
    requires ThreadPublished(next, s.published) && HandedPublished(s'.handedOut, s.published)
    ensures Safe(s')
  {
    OneThread(s.threads, tid, next, s.published);
  }

  lemma HandOut(s: State, name: string, network: Network)
    requires Safe(s) && WasPublished(s.published, name, network)
    ensures HandedPublished(s.handedOut + [(name, network)], s.published)
  {
  }

  lemma TouchPublished(t: Tables, name: string, now: int, published: set<(string, Entry)>)
    requires TablesPublished(t, published)
    ensures TablesPublished(Touch(t, name, now), published)
  {
  }

  lemma TouchedSafe(s: State, s': State, tid: nat, name: string, network: Network, now: int)
    requires Safe(s) && WasPublished(s.published, name, network)
    requires s'.published == s.published && s'.store.base == s.store.base && s'.threads == s.threads[tid := Idle]
    requires s'.store.tables == Touch(s.store.tables, name, now)
    requires s'.lateTouches == if name in s.store.tables.agents then s.lateTouches else s.lateTouches + {name}
    requires s'.handedOut == s.handedOut + [(name, network)]
    ensures Safe(s')
  {
    TouchSafe(s.store.tables, s.lateTouches, name, now);
    TouchPublished(s.store.tables, name, now, s.published);
    HandOut(s, name, network);
    MoveSafe(s, s', tid, Idle);
  }

  lemma TouchingSafe(s: State, tid: nat, now: int)
    requires Safe(s) && ThreadOf(s, tid).Touching?
    ensures Safe(Next(s, tid, now))
  {
    var th := ThreadOf(s, tid);
    assert ThreadPublished(th, s.published);
    TouchedSafe(s, Next(s, tid, now), tid, th.name, th.network, now);
  }

  lemma CachingSafe(s: State, tid: nat, now: int)
    requires Safe(s) && ThreadOf(s, tid).Caching?
    ensures Safe(Next(s, tid, now))
  {
    var t, th := s.store.tables, ThreadOf(s, tid);
    if IsExpired(th.entry.reservation, now) {
      MoveSafe(s, Next(s, tid, now), tid, Idle);
    } else {
      InsertSafe(t, s.lateTouches, s.published, th.name, th.entry, now);
      assert WasPublished(s.published, th.name, th.entry.network);
      HandOut(s, th.name, th.entry.network);
      MoveSafe(s, Next(s, tid, now), tid, Evicting);
    }
  }

  // The steps that leave the tables alone.
  lemma ReadingSafe(s: State, tid: nat, now: int)
    requires Safe(s)
    requires var th := ThreadOf(s, tid); th.Evicting? || th.Checking? || th.ReadingAgent? || th.AskingBase?
    ensures Safe(Next(s, tid, now))
  {
    var t, next := s.store.tables, ThreadOf(Next(s, tid, now), tid);
    if next.Touching? {
      AgentPublished(t, s.published, next.name);
    }
    MoveSafe(s, Next(s, tid, now), tid, next);
  }

  lemma AgentPublished(t: Tables, published: set<(string, Entry)>, name: string)
    requires TablesPublished(t, published) && t.agents.Keys == t.reservations.at.Keys && name in t.agents
    ensures WasPublished(published, name, t.agents[name])
  {
    var e := Entry(t.reservations.at[name], t.agents[name]);
    assert (name, e) in published;
  }

  // The locked block of an addition.
  lemma AddedSafe(s: State, s': State, tid: nat, batch: Batch, now: int)
    requires Safe(s) && tid in s.threads && s.threads[tid] == Adding(batch)
    requires s' == At(SetTables(s, InsertAll(s.store.tables, batch, now)), tid, Evicting)
    ensures Safe(s')
  {
    assert ThreadPublished(s.threads[tid], s.published);
    InsertAllSafe(s.store.tables, s.lateTouches, s.published, batch, now);
    MoveSafe(s, s', tid, Evicting);
  }

  // The locked block of an eviction or an expiry.
  lemma RemovedSafe(s: State, s': State, tid: nat, names: seq<string>)
    requires Safe(s) && s' == At(SetTables(s, RemoveAll(s.store.tables, names)), tid, Idle)
    ensures Safe(s')
  {
    RemoveAllSafe(s.store.tables, s.lateTouches, s.published, names);
    MoveSafe(s, s', tid, Idle);
  }

  lemma NextSafe(s: State, tid: nat, now: int)
    requires Safe(s)
    ensures Safe(Next(s, tid, now))
  {
    var t := s.store.tables;
    match ThreadOf(s, tid)
    case Adding(batch) => AddedSafe(s, Next(s, tid, now), tid, batch, now);
    case EvictingLocked =>
      RemovedSafe(s, Next(s, tid, now), tid, Victims(t, s.store.maxItems, s.store.threshold));
    case Removing(names) => RemovedSafe(s, Next(s, tid, now), tid, names);
    case Touching(name, network) => TouchingSafe(s, tid, now);
    case Caching(name, entry) => CachingSafe(s, tid, now);
    case ClearingThreshold(limit) => MoveSafe(s, Next(s, tid, now), tid, SettingThreshold(limit));
    case SettingThreshold(limit) => MoveSafe(s, Next(s, tid, now), tid, Evicting);
    case Idle =>
    case _ => ReadingSafe(s, tid, now);
  }

  // For any number of threads and any schedule: the key sets agree up to late touches, and
  // every network a lookup returns was published under the name it was asked for.
  lemma {:induction false} EveryScheduleSafe(base: Option<map<string, Entry>>, schedule: seq<(nat, Action)>)
    ensures Safe(Run(Begin(base), schedule))
  {
    if schedule != [] {
      var (tid, a) := schedule[|schedule| - 1];
      var before := Run(Begin(base), schedule[..|schedule| - 1]);
      EveryScheduleSafe(base, schedule[..|schedule| - 1]);
      if ThreadOf(before, tid).Idle? {
        StartSafe(before, tid, a);
      } else if a.Continue? {
        NextSafe(before, tid, a.now);
      }
    }
  }

  lemma {:induction false} RunSnoc(s: State, schedule: seq<(nat, Action)>, step: (nat, Action))
    ensures Run(s, schedule + [step]) == Act(Run(s, schedule), step.0, step.1)
  {
    assert (schedule + [step])[..|schedule|] == schedule;
  }
}
