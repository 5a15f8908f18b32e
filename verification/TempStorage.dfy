// The temporary network storage: a bounded, expiring, least-recently-used cache in front of
// a base reservations storage (expiring_agent_network_storage.py).  This file is the
// specification on values: one function per operation, and the runs made of them.
module TempStorage {
  import opened PyDicts

  datatype Reservation = Reservation(id: string, expires: int)
  datatype Spec = Spec(body: string, bytes: nat)
  datatype Network = Network(name: string, spec: Spec)
  datatype Entry = Entry(reservation: Reservation, network: Network)

  // What a registered listener is told, in order.
  datatype Change = Added | Modified | Removed
  datatype Event = Event(change: Change, name: string)

  type Batch = seq<(Reservation, Spec)>

  // The four parallel tables.
  datatype Tables = Tables(
    agents: map<string, Network>,
    reservations: Dict<Reservation>,
    access: Dict<int>,
    sizes: map<string, nat>)

  datatype Store = Store(tables: Tables, maxItems: int, threshold: nat, base: Option<map<string, Entry>>)

  const NoTables := Tables(map[], Dict([], map[]), Dict([], map[]), map[])

  function Fresh(base: Option<map<string, Entry>>): Store {
    Store(NoTables, 0, 0, base)
  }

  predicate IsExpired(r: Reservation, t: int) {
    t > r.expires
  }

  function EntryOf(item: (Reservation, Spec)): Entry {
    Entry(item.0, Network(item.0.id, item.1))
  }

  /* ---------- table operations ---------- */

  function Insert(t: Tables, name: string, e: Entry, now: int): Tables {
    Tables(t.agents[name := e.network], t.reservations.Put(name, e.reservation),
           t.access.Put(name, now), t.sizes[name := e.network.spec.bytes])
  }

  function Remove(t: Tables, name: string): Tables {
    Tables(t.agents - {name}, t.reservations.Pop(name), t.access.Pop(name), t.sizes - {name})
  }

  function Touch(t: Tables, name: string, now: int): Tables {
    t.(access := t.access.Put(name, now))
  }

  function InsertAll(t: Tables, batch: Batch, now: int): Tables {
    if batch == [] then t
    else
      var last := batch[|batch| - 1];
      Insert(InsertAll(t, batch[..|batch| - 1], now), last.0.id, EntryOf(last), now)
  }

  function RemoveAll(t: Tables, names: seq<string>): Tables {
    if names == [] then t
    else Remove(RemoveAll(t, names[..|names| - 1]), names[|names| - 1])
  }

  // The names of the batch that were new, and those that replaced a network, in batch order.
  function NamesInBatch(t: Tables, batch: Batch, now: int, isNew: bool): seq<string> {
    if batch == [] then []
    else
      var id := batch[|batch| - 1].0.id;
      var front := batch[..|batch| - 1];
      NamesInBatch(t, front, now, isNew) +
      if (id !in InsertAll(t, front, now).agents) == isNew then [id] else []
  }

  /* ---------- least recently used order ---------- */

  function TimeOf(at: map<string, int>, k: string): int {
    if k in at then at[k] else 0
  }

  // Stable insertion of a key behind every key that is not younger.
  function InsertByTime(sorted: seq<string>, k: string, at: map<string, int>): seq<string> {
    if sorted == [] || TimeOf(at, sorted[|sorted| - 1]) <= TimeOf(at, k) then sorted + [k]
    else InsertByTime(sorted[..|sorted| - 1], k, at) + [sorted[|sorted| - 1]]
  }

  // Python's sorted(), which is stable, with the access time as key.
  function SortByTime(keys: seq<string>, at: map<string, int>): seq<string> {
    if keys == [] then []
    else InsertByTime(SortByTime(keys[..|keys| - 1], at), keys[|keys| - 1], at)
  }

  // Python's max(1, round(max_items * 0.05)): one twentieth, halves rounded to even.
  function Threshold(maxItems: int): nat {
    if maxItems <= 0 then 0
    else
      var q, r := maxItems / 20, maxItems % 20;
      var rounded := if r > 10 || (r == 10 && q % 2 == 1) then q + 1 else q;
      if rounded < 1 then 1 else rounded
  }

  // What the locked part of an eviction removes: it does not look at the limit again.
  function Victims(t: Tables, maxItems: int, threshold: nat): seq<string>
  {
    var overflow := |t.agents| - maxItems;
    var sorted := SortByTime(t.access.order, t.access.at);
    if overflow <= threshold then []
    else sorted[..if overflow <= |sorted| then overflow else |sorted|]
  }

  /* ---------- operations ---------- */

  // Each operation carries the clock readings it takes.  A lookup reads the clock when it
  // checks the reservation it found in its table (first) or the base checks its own (first),
  // when it checks what the base returned (second), and when it stamps the entry (last).
  datatype Op =
    | Add(batch: Batch, now: int)
    | Lookup(name: string, first: int, second: int, last: int)
    | Expire(reading: string -> int, lo: int, hi: int)
    | SetMax(maxItems: int)
    | BaseSweep(now: int)  // the base storage expires entries on its own schedule

  datatype Outcome = Outcome(store: Store, answer: Option<Network>, events: seq<Event>)

  function Each(names: seq<string>, change: Change): seq<Event> {
    if names == [] then [] else Each(names[..|names| - 1], change) + [Event(change, names[|names| - 1])]
  }

  // The whole eviction, with the look at the limit that precedes the lock.
  function Evicted(t: Tables, maxItems: int, threshold: nat): seq<string> {
    if maxItems <= 0 then [] else Victims(t, maxItems, threshold)
  }

  function Evict(s: Store): Outcome
  {
    var evicted := Evicted(s.tables, s.maxItems, s.threshold);
    Outcome(s.(tables := RemoveAll(s.tables, evicted)), None, Each(evicted, Removed))
  }

  function AddToBase(base: map<string, Entry>, batch: Batch): map<string, Entry> {
    if batch == [] then base
    else
      var last := batch[|batch| - 1];
      AddToBase(base, batch[..|batch| - 1])[last.0.id := EntryOf(last)]
  }

  function WrittenThrough(base: Option<map<string, Entry>>, batch: Batch): Option<map<string, Entry>> {
    if base.Some? then Some(AddToBase(base.value, batch)) else None
  }

  // The base is a faithful map that returns nothing for an expired entry.
  function FromBase(base: map<string, Entry>, name: string, t: int): Option<Entry> {
    if name in base && !IsExpired(base[name].reservation, t) then Some(base[name]) else None
  }

  function ExpiredNames(r: Dict<Reservation>, reading: string -> int): seq<string>
  {
    ExpiredAmong(r.order, r.at, reading)
  }

  function ExpiredAmong(names: seq<string>, at: map<string, Reservation>, reading: string -> int): seq<string>
  {
    if names == [] then []
    else
      var n := names[|names| - 1];
      ExpiredAmong(names[..|names| - 1], at, reading) +
      if n in at && IsExpired(at[n], reading(n)) then [n] else []
  }

  ghost predicate SameKeys(t: Tables) {
    && t.reservations.Valid()
    && t.access.Valid()
    && t.agents.Keys == t.reservations.at.Keys == t.access.at.Keys == t.sizes.Keys
  }

  function AddLocal(t: Tables, maxItems: int, threshold: nat, batch: Batch, now: int): (Tables, seq<Event>) {
    var overfull := InsertAll(t, batch, now);
    var evicted := Evicted(overfull, maxItems, threshold);
    (RemoveAll(overfull, evicted),
     Each(NamesInBatch(t, batch, now, true), Added) +
     Each(NamesInBatch(t, batch, now, false), Modified) +
     Each(evicted, Removed))
  }

  function AddStep(s: Store, batch: Batch, now: int): Outcome {
    if batch == [] then Outcome(s, None, [])
    else
      var (tables, events) := AddLocal(s.tables, s.maxItems, s.threshold, batch, now);
      Outcome(s.(tables := tables, base := WrittenThrough(s.base, batch)), None, events)
  }

  function Cached(s: Store, name: string, e: Entry, now: int): Store {
    s.(tables := Insert(s.tables, name, e, now))
  }

  function LookupStep(s: Store, name: string, first: int, second: int, last: int): Outcome
  {
    var t := s.tables;
    if name in t.reservations.at then
      if IsExpired(t.reservations.at[name], first) then
        Outcome(s.(tables := Remove(t, name)), None, [Event(Removed, name)])
      else if name in t.agents then
        Outcome(s.(tables := Touch(t, name, last)), Some(t.agents[name]), [])
      else
        Outcome(s, None, [])
    else if s.base.None? then
      Outcome(s, None, [])
    else
      var found := FromBase(s.base.value, name, first);
      if found.Some? && !IsExpired(found.value.reservation, second) then
        var evicted := Evict(Cached(s, name, found.value, last));
        Outcome(evicted.store, Some(found.value.network), [Event(Added, name)] + evicted.events)
      else
        Outcome(s, None, [])
  }

  function ExpireStep(s: Store, reading: string -> int): Outcome
  {
    var expired := ExpiredNames(s.tables.reservations, reading);
    Outcome(s.(tables := RemoveAll(s.tables, expired)), None, Each(expired, Removed))
  }

  function Step(s: Store, op: Op): Outcome
  {
    match op
    case Add(batch, now) => AddStep(s, batch, now)
    case Lookup(name, first, second, last) => LookupStep(s, name, first, second, last)
    case Expire(reading, _, _) => ExpireStep(s, reading)
    case SetMax(maxItems) => Evict(s.(maxItems := maxItems, threshold := Threshold(maxItems)))
    case BaseSweep(now) => Outcome(s.(base := if s.base.Some? then Some(Sweep(s.base.value, now)) else None), None, [])
  }

  function Sweep(base: map<string, Entry>, now: int): map<string, Entry> {
    map n | n in base && !IsExpired(base[n].reservation, now) :: base[n]
  }

  /* ---------- every operation keeps the four key sets equal ---------- */

  lemma InsertKeeps(t: Tables, name: string, e: Entry, now: int)
    requires SameKeys(t)
    ensures SameKeys(Insert(t, name, e, now))
  {
    PutValid(t.reservations, name, e.reservation);
    PutValid(t.access, name, now);
    KeysOfPut(t, name, e, now);
  }

  lemma AgentsOfPut(t: Tables, name: string, e: Entry, now: int)
    ensures Insert(t, name, e, now).agents.Keys == t.agents.Keys + {name}
  {
  }

  lemma KeysOfPut(t: Tables, name: string, e: Entry, now: int)
    ensures var t' := Insert(t, name, e, now);
      && t'.agents.Keys == t.agents.Keys + {name}
      && t'.reservations.at.Keys == t.reservations.at.Keys + {name}
      && t'.access.at.Keys == t.access.at.Keys + {name}
      && t'.sizes.Keys == t.sizes.Keys + {name}
  {
  }

  lemma {:induction false} InsertAllKeeps(t: Tables, batch: Batch, now: int)
    requires SameKeys(t)
    ensures SameKeys(InsertAll(t, batch, now))
  {
    if batch != [] {
      var front, last := batch[..|batch| - 1], batch[|batch| - 1];
      InsertAllKeeps(t, front, now);
      InsertKeeps(InsertAll(t, front, now), last.0.id, EntryOf(last), now);
    }
  }

  lemma RemoveValid(t: Tables, name: string)
    requires t.reservations.Valid() && t.access.Valid()
    ensures Remove(t, name).reservations.Valid() && Remove(t, name).access.Valid()
  {
    PopValid(t.reservations, name);
    PopValid(t.access, name);
  }

  lemma RemoveKeeps(t: Tables, name: string)
    requires SameKeys(t)
    ensures SameKeys(Remove(t, name))
  {
    RemoveValid(t, name);
  }

  lemma MinusOne<V>(m: map<string, V>, front: seq<string>, last: string)
    ensures m - Elements(front) - {last} == m - Elements(front + [last])
  {
    assert Elements(front + [last]) == Elements(front) + {last};
  }

  // Removing a list of names takes exactly those out of every table and touches no other entry.
  lemma {:induction false} RemoveAllTables(t: Tables, names: seq<string>)
    ensures RemoveAll(t, names).agents == t.agents - Elements(names)
    ensures RemoveAll(t, names).reservations.at == t.reservations.at - Elements(names)
    ensures RemoveAll(t, names).access.at == t.access.at - Elements(names)
    ensures RemoveAll(t, names).sizes == t.sizes - Elements(names)
  {
    if names == [] {
      assert Elements(names) == {};
    } else {
      var front, last := names[..|names| - 1], names[|names| - 1];
      RemoveAllTables(t, front);
      assert names == front + [last];
      MinusOne(t.agents, front, last);
      MinusOne(t.reservations.at, front, last);
      MinusOne(t.access.at, front, last);
      MinusOne(t.sizes, front, last);
    }
  }

  lemma {:induction false} RemoveAllValid(t: Tables, names: seq<string>)
    requires t.reservations.Valid() && t.access.Valid()
    ensures RemoveAll(t, names).reservations.Valid() && RemoveAll(t, names).access.Valid()
  {
    if names != [] {
      RemoveAllValid(t, names[..|names| - 1]);
      RemoveValid(RemoveAll(t, names[..|names| - 1]), names[|names| - 1]);
    }
  }

  lemma {:induction false} RemoveAllKeeps(t: Tables, names: seq<string>)
    requires SameKeys(t)
    ensures SameKeys(RemoveAll(t, names))
  {
    if names != [] {
      RemoveAllKeeps(t, names[..|names| - 1]);
      RemoveKeeps(RemoveAll(t, names[..|names| - 1]), names[|names| - 1]);
    }
  }

  lemma EvictKeeps(s: Store)
    requires SameKeys(s.tables)
    ensures SameKeys(Evict(s).store.tables)
  {
    RemoveAllKeeps(s.tables, Evicted(s.tables, s.maxItems, s.threshold));
  }

  lemma AddKeeps(s: Store, batch: Batch, now: int)
    requires SameKeys(s.tables)
    ensures SameKeys(AddStep(s, batch, now).store.tables)
  {
    if batch != [] {
      InsertAllKeeps(s.tables, batch, now);
      EvictKeeps(s.(tables := InsertAll(s.tables, batch, now)));
    }
  }

  lemma LookupKeeps(s: Store, name: string, first: int, second: int, last: int)
    requires SameKeys(s.tables)
    ensures SameKeys(LookupStep(s, name, first, second, last).store.tables)
  {
    if name in s.tables.reservations.at {
      RemoveKeeps(s.tables, name);
      PutValid(s.tables.access, name, last);
      assert s.tables.access.at[name := last].Keys == s.tables.access.at.Keys;
    } else if s.base.Some? && FromBase(s.base.value, name, first).Some? {
      var e := FromBase(s.base.value, name, first).value;
      InsertKeeps(s.tables, name, e, last);
      EvictKeeps(Cached(s, name, e, last));
    }
  }

  lemma StepKeeps(s: Store, op: Op)
    requires SameKeys(s.tables)
    ensures SameKeys(Step(s, op).store.tables)
  {
    match op
    case Add(batch, now) => AddKeeps(s, batch, now);
    case Lookup(name, first, second, last) => LookupKeeps(s, name, first, second, last);
    case Expire(reading, _, _) => RemoveAllKeeps(s.tables, ExpiredNames(s.tables.reservations, reading));
    case SetMax(maxItems) => EvictKeeps(s.(maxItems := maxItems, threshold := Threshold(maxItems)));
    case BaseSweep(now) =>
  }
}
