// What the operations of the temporary storage do, said of the entries themselves: what a lookup
// answers with or without a base storage, what expires, and what was used least recently.
module StorageAnswers {
  import opened PyDicts
  import opened TempStorage
  import opened TempStorageRuns
  import opened StorageBounds
  import opened Listeners

  /* ---------- one operation ---------- */

  // The same entries, whenever they were last used.
  predicate SameEntries(t: Tables, t': Tables) {
    t'.agents == t.agents && t'.reservations.at == t.reservations.at && t'.sizes == t.sizes
  }

  // With or without a base, a cached name is answered exactly until its time; past it, its entry
  // leaves and that is announced.  No other entry is touched.
  lemma CachedLookup(s: Store, name: string, first: int, second: int, last: int)
    requires SameKeys(s.tables) && name in s.tables.reservations.at
    ensures var o, t := Step(s, Lookup(name, first, second, last)), s.tables;
      && (o.answer.Some? <==> first <= t.reservations.at[name].expires)
      && (o.answer.Some? ==>
            && o.answer == Some(t.agents[name]) && o.events == []
            && SameEntries(t, o.store.tables) && o.store.tables.access.at == t.access.at[name := last])
      && (o.answer.None? ==>
            && o.events == [Event(Removed, name)]
            && o.store.tables.agents == t.agents - {name} && o.store.tables.access.at == t.access.at - {name}
            && o.store.tables.reservations.at == t.reservations.at - {name} && o.store.tables.sizes == t.sizes - {name})
      && o.store.base == s.base
  {
  }

  // A name that is not cached is answered exactly by an entry of the base whose time has come at
  // neither moment it is checked; otherwise nothing happens.
  lemma UncachedLookup(s: Store, name: string, first: int, second: int, last: int)
    requires SameKeys(s.tables) && name !in s.tables.reservations.at
    ensures var o := Step(s, Lookup(name, first, second, last));
      && (o.answer.Some? <==>
            && s.base.Some? && name in s.base.value
            && first <= s.base.value[name].reservation.expires && second <= s.base.value[name].reservation.expires)
      && (o.answer.Some? ==>
            o.answer == Some(s.base.value[name].network) && |o.events| > 0 && o.events[0] == Event(Added, name))
      && (o.answer.None? ==> o.store == s && o.events == [])
      && o.store.base == s.base
  {
  }

  // An expiry takes exactly the entries past their time, each by the reading taken for it, and
  // announces exactly those, each once.
  lemma ExpireExactly(s: Store, reading: string -> int, lo: int, hi: int)
    requires SameKeys(s.tables)
    ensures var o, t := Step(s, Expire(reading, lo, hi)), s.tables;
      && (forall n :: n in o.store.tables.agents <==> n in t.agents && reading(n) <= t.reservations.at[n].expires)
      && (forall n :: n in o.store.tables.agents ==>
            && n in o.store.tables.reservations.at && n in o.store.tables.access.at && n in o.store.tables.sizes
            && o.store.tables.agents[n] == t.agents[n]
            && o.store.tables.reservations.at[n] == t.reservations.at[n]
            && o.store.tables.access.at[n] == t.access.at[n]
            && o.store.tables.sizes[n] == t.sizes[n])
      && (forall e: Event :: e in o.events <==>
            e.change == Removed && e.name in t.agents && t.reservations.at[e.name].expires < reading(e.name))
      && |o.events| == |t.agents| - |o.store.tables.agents|
  {
    var expired := ExpiredNames(s.tables.reservations, reading);
    RemoveAllTables(s.tables, expired);
    RemoveAllKeeps(s.tables, expired);
    ExpiredHere(s.tables, reading);
    EachIs(expired, Removed);
  }

  lemma ExpiredHere(t: Tables, reading: string -> int)
    requires SameKeys(t)
    ensures var expired := ExpiredNames(t.reservations, reading);
      && (forall n :: n in expired <==> n in t.agents && t.reservations.at[n].expires < reading(n))
      && |expired| == |t.agents| - |RemoveAll(t, expired).agents|
  {
    var expired := ExpiredNames(t.reservations, reading);
    ExpiredAre(t.reservations.order, t.reservations.at, reading);
    RemoveAllTables(t, expired);
    DistinctSize(expired);
    forall n ensures n in expired <==> n in t.agents && t.reservations.at[n].expires < reading(n) {
      assert n in t.reservations.order <==> n in Elements(t.reservations.order);
    }
    RestOf(t.agents, Elements(expired));
  }

  lemma RestOf<V>(m: map<string, V>, gone: set<string>)
    requires gone <= m.Keys
    ensures |m - gone| == |m| - |gone|
  {
    assert (m - gone).Keys == m.Keys - gone;
    assert m.Keys == (m.Keys - gone) + gone;
  }

  /* ---------- the slack of a limit ---------- */

  // n is the whole number nearest to a twentieth, and the even one of two that are equally near.
  predicate NearestToTwentieth(n: nat, maxItems: int) {
    var off := 20 * n - maxItems;
    -10 <= off <= 10 && (off == 10 || off == -10 ==> n % 2 == 0)
  }

  lemma ThresholdIs(maxItems: int)
    ensures maxItems <= 0 ==> Threshold(maxItems) == 0
    ensures maxItems > 0 ==> exists n: nat :: NearestToTwentieth(n, maxItems)
    ensures maxItems > 0 ==>
      forall n: nat :: NearestToTwentieth(n, maxItems) ==> Threshold(maxItems) == if n == 0 then 1 else n
  {
    if maxItems > 0 {
      var q, r := maxItems / 20, maxItems % 20;
      var n := if r > 10 || (r == 10 && q % 2 == 1) then q + 1 else q;
      assert NearestToTwentieth(n, maxItems);
      forall m: nat | NearestToTwentieth(m, maxItems) ensures m == n {
        assert -20 <= 20 * (m - n) <= 20;
      }
    }
  }

  /* ---------- additions ---------- */

  function Ids(batch: Batch): set<string> {
    set item | item in batch :: item.0.id
  }

  lemma IdsSnoc(batch: Batch)
    requires batch != []
    ensures Ids(batch) == Ids(batch[..|batch| - 1]) + {batch[|batch| - 1].0.id}
  {
    assert batch == batch[..|batch| - 1] + [batch[|batch| - 1]];
    forall n | n in Ids(batch)
      ensures n in Ids(batch[..|batch| - 1]) + {batch[|batch| - 1].0.id}
    {
      var item :| item in batch && item.0.id == n;
      assert item in batch[..|batch| - 1] || item == batch[|batch| - 1];
    }
  }

  lemma {:induction false} InsertedAre(t: Tables, batch: Batch, now: int)
    ensures var t' := InsertAll(t, batch, now);
      && t'.agents.Keys == t.agents.Keys + Ids(batch)
      && t'.access.at.Keys == t.access.at.Keys + Ids(batch)
      && (forall n :: n in t'.access.at ==> t'.access.at[n] == if n in Ids(batch) then now else t.access.at[n])
  {
    if batch != [] {
      var front, last := batch[..|batch| - 1], batch[|batch| - 1];
      InsertedAre(t, front, now);
      IdsSnoc(batch);
      KeysOfPut(InsertAll(t, front, now), last.0.id, EntryOf(last), now);
    }
  }

  lemma {:induction false} RefKeys(ref: map<string, Entry>, batch: Batch)
    ensures AddToBase(ref, batch).Keys == ref.Keys + Ids(batch)
    ensures forall n :: n in ref && n !in Ids(batch) ==> AddToBase(ref, batch)[n] == ref[n]
  {
    if batch != [] {
      RefKeys(ref, batch[..|batch| - 1]);
      IdsSnoc(batch);
    }
  }

  ghost predicate DistinctIds(batch: Batch) {
    forall i, j :: 0 <= i < j < |batch| ==> batch[i].0.id != batch[j].0.id
  }

  // The last item of an id is what is stored under it, in the tables and in the base.
  lemma {:induction false} Stores(t: Tables, base: map<string, Entry>, batch: Batch, now: int, i: nat)
    requires i < |batch| && forall j :: i < j < |batch| ==> batch[j].0.id != batch[i].0.id
    ensures var (reservation, spec) := batch[i];
      var id, t' := reservation.id, InsertAll(t, batch, now);
      && id in t'.agents && t'.agents[id] == Network(id, spec)
      && id in t'.reservations.at && t'.reservations.at[id] == reservation
      && id in t'.access.at && t'.access.at[id] == now
      && id in t'.sizes && t'.sizes[id] == spec.bytes
      && id in AddToBase(base, batch) && AddToBase(base, batch)[id] == Entry(reservation, Network(id, spec))
  {
    if i < |batch| - 1 {
      Stores(t, base, batch[..|batch| - 1], now, i);
    }
  }

  // The ids of a batch that are, or are not, among these names, in batch order.
  function Among(batch: Batch, names: set<string>, isIn: bool): seq<string> {
    if batch == [] then []
    else
      var id := batch[|batch| - 1].0.id;
      Among(batch[..|batch| - 1], names, isIn) + if (id in names) == isIn then [id] else []
  }

  // Names are announced in batch order: as added if they were not cached before, else as modified.
  lemma {:induction false} AnnouncedInOrder(t: Tables, batch: Batch, now: int, isNew: bool)
    requires DistinctIds(batch)
    ensures NamesInBatch(t, batch, now, isNew) == Among(batch, t.agents.Keys, !isNew)
  {
    if batch != [] {
      var front, last := batch[..|batch| - 1], batch[|batch| - 1];
      AnnouncedInOrder(t, front, now, isNew);
      InsertedAre(t, front, now);
    }
  }

  // Each name is cached with the size of its network.
  ghost predicate Sized(t: Tables) {
    forall n :: n in t.agents ==> n in t.sizes && t.sizes[n] == t.agents[n].spec.bytes
  }

  lemma {:induction false} InsertAllSized(t: Tables, batch: Batch, now: int)
    requires Sized(t)
    ensures Sized(InsertAll(t, batch, now))
  {
    if batch != [] {
      InsertAllSized(t, batch[..|batch| - 1], now);
    }
  }

  lemma RemoveAllSized(t: Tables, names: seq<string>)
    requires Sized(t)
    ensures Sized(RemoveAll(t, names))
  {
    RemoveAllTables(t, names);
  }

  lemma StepSized(s: Store, op: Op)
    requires Sized(s.tables)
    ensures Sized(Step(s, op).store.tables)
  {
    match op
    case Add(batch, now) =>
      InsertAllSized(s.tables, batch, now);
      var overfull := InsertAll(s.tables, batch, now);
      RemoveAllSized(overfull, Evicted(overfull, s.maxItems, s.threshold));
    case Lookup(name, first, second, last) =>
      if s.base.Some? && name in s.base.value {
        var overfull := Insert(s.tables, name, s.base.value[name], last);
        RemoveAllSized(overfull, Evicted(overfull, s.maxItems, s.threshold));
      }
    case Expire(reading, _, _) => RemoveAllSized(s.tables, ExpiredNames(s.tables.reservations, reading));
    case SetMax(m) => RemoveAllSized(s.tables, Evicted(s.tables, m, Threshold(m)));
    case BaseSweep(_) =>
  }

  // In every run, with or without a base.
  lemma {:induction false} RunSized(s: Store, ops: seq<Op>)
    requires Sized(s.tables)
    ensures Sized(Final(s, ops).tables)
    decreases |ops|
  {
    if ops != [] {
      StepSized(s, ops[0]);
      RunSized(Step(s, ops[0]).store, ops[1..]);
    }
  }

  /* ---------- runs without a base storage ---------- */

  // What the unbounded map answers at the moment a lookup first checks the clock.
  function RefAnswers(ref: map<string, Entry>, ops: seq<Op>): seq<Option<Network>>
    decreases |ops|
  {
    if ops == [] then []
    else
      [if ops[0].Lookup? then Visible(ref, ops[0].name, ops[0].first) else None] +
      RefAnswers(RefStep(ref, ops[0]), ops[1..])
  }

  // The names whose entry was evicted and that have not been added since: after an addition or a
  // new limit, those that were there or were added, and are not there.
  function LostStep(lost: set<string>, s: Store, op: Op): set<string> {
    var after := Step(s, op).store.tables.agents.Keys;
    match op
    case Add(batch, _) => lost + s.tables.agents.Keys + Ids(batch) - after
    case SetMax(_) => lost + s.tables.agents.Keys - after
    case _ => lost
  }

  // The same answers, but for the names that are lost at the time.
  function AnswersBut(ref: map<string, Entry>, lost: set<string>, s: Store, ops: seq<Op>): seq<Option<Network>>
    decreases |ops|
  {
    if ops == [] then []
    else
      [if ops[0].Lookup? && ops[0].name !in lost then Visible(ref, ops[0].name, ops[0].first) else None] +
      AnswersBut(RefStep(ref, ops[0]), LostStep(lost, s, ops[0]), Step(s, ops[0]).store, ops[1..])
  }

  // The cache holds the map's entries, but for what is lost or past its time.
  ghost predicate Remembers(t: Tables, ref: map<string, Entry>, lost: set<string>, now: int) {
    && SameKeys(t) && CacheAgrees(t, ref) && t.agents.Keys !! lost
    && forall n :: n in ref ==> n in t.agents || n in lost || ref[n].reservation.expires < now
  }

  lemma EvictRemembers(t: Tables, ref: map<string, Entry>, lost: set<string>, now: int, names: seq<string>)
    requires Remembers(t, ref, lost, now)
    ensures Remembers(RemoveAll(t, names), ref, lost + t.agents.Keys - RemoveAll(t, names).agents.Keys, now)
  {
    RemoveAllKeeps(t, names);
    RemoveAgrees(t, ref, names);
  }

  lemma AddRemembers(s: Store, ref: map<string, Entry>, lost: set<string>, now: int, batch: Batch, t: int)
    requires Remembers(s.tables, ref, lost, now) && now <= t
    ensures var op := Add(batch, t);
      Remembers(Step(s, op).store.tables, RefStep(ref, op), LostStep(lost, s, op), t)
  {
    if batch != [] {
      var overfull := InsertAll(s.tables, batch, t);
      InsertAllKeeps(s.tables, batch, t);
      AddAgrees(s.tables, ref, batch, t);
      InsertedAre(s.tables, batch, t);
      RefKeys(ref, batch);
      assert Remembers(overfull, AddToBase(ref, batch), lost - Ids(batch), t);
      var evicted := Evicted(overfull, s.maxItems, s.threshold);
      EvictRemembers(overfull, AddToBase(ref, batch), lost - Ids(batch), t, evicted);
      LostIs(lost, s.tables.agents.Keys, Ids(batch), overfull.agents.Keys, RemoveAll(overfull, evicted).agents.Keys);
    } else {
      assert LostStep(lost, s, Add(batch, t)) == lost;
    }
  }

  lemma LostIs(lost: set<string>, keys: set<string>, ids: set<string>, over: set<string>, after: set<string>)
    requires over == keys + ids
    ensures lost - ids + over - after == lost + keys + ids - after
  {
  }

  lemma LookupRemembers(s: Store, ref: map<string, Entry>, lost: set<string>, now: int, op: Op)
    requires Remembers(s.tables, ref, lost, now) && s.base.None?
    requires op.Lookup? && now <= op.first <= op.second <= op.last
    ensures Remembers(Step(s, op).store.tables, ref, lost, op.last)
    ensures Step(s, op).answer == if op.name in lost then None else Visible(ref, op.name, op.first)
  {
    LookupKeeps(s, op.name, op.first, op.second, op.last);
  }

  lemma ExpireRemembers(s: Store, ref: map<string, Entry>, lost: set<string>, now: int, op: Op)
    requires Remembers(s.tables, ref, lost, now) && op.Expire? && Timed(op, now)
    ensures Remembers(Step(s, op).store.tables, ref, lost, op.hi)
  {
    var expired := ExpiredNames(s.tables.reservations, op.reading);
    ExpireExactly(s, op.reading, op.lo, op.hi);
    RemoveAllKeeps(s.tables, expired);
    RemoveAgrees(s.tables, ref, expired);
  }

  lemma StepRemembers(s: Store, ref: map<string, Entry>, lost: set<string>, now: int, op: Op)
    requires Remembers(s.tables, ref, lost, now) && s.base.None? && Timed(op, now)
    ensures Step(s, op).store.base.None?
    ensures Remembers(Step(s, op).store.tables, RefStep(ref, op), LostStep(lost, s, op), EndOf(op, now))
    ensures Step(s, op).answer == if op.Lookup? && op.name !in lost then Visible(ref, op.name, op.first) else None
  {
    match op
    case Add(batch, t) => AddRemembers(s, ref, lost, now, batch, t);
    case Lookup(_, _, _, _) => LookupRemembers(s, ref, lost, now, op);
    case Expire(_, _, _) => ExpireRemembers(s, ref, lost, now, op);
    case SetMax(m) => EvictRemembers(s.tables, ref, lost, now, Evicted(s.tables, m, Threshold(m)));
    case BaseSweep(_) =>
  }

  // Without a base, in every timed run and for every limit, each lookup answers as the unbounded
  // map does at its first look at the clock, but for the names that are lost to evictions.
  lemma {:induction false} WithoutBase(s: Store, ref: map<string, Entry>, lost: set<string>, ops: seq<Op>, now: int)
    requires Remembers(s.tables, ref, lost, now) && s.base.None? && TimedRun(ops, now)
    ensures Answers(s, ops) == AnswersBut(ref, lost, s, ops)
    decreases |ops|
  {
    if ops != [] {
      StepRemembers(s, ref, lost, now, ops[0]);
      WithoutBase(Step(s, ops[0]).store, RefStep(ref, ops[0]), LostStep(lost, s, ops[0]), ops[1..], EndOf(ops[0], now));
    }
  }

  // No limit is ever set.
  predicate Unlimited(ops: seq<Op>) {
    forall i :: 0 <= i < |ops| && ops[i].SetMax? ==> ops[i].maxItems <= 0
  }

  lemma NothingEvicted(s: Store, op: Op)
    requires s.maxItems <= 0 && (op.SetMax? ==> op.maxItems <= 0)
    ensures Step(s, op).store.maxItems <= 0
    ensures LostStep({}, s, op) == {}
  {
    match op
    case Add(batch, now) => InsertedAre(s.tables, batch, now);
    case _ =>
  }

  lemma {:induction false} NothingLost(ref: map<string, Entry>, s: Store, ops: seq<Op>)
    requires s.maxItems <= 0 && Unlimited(ops)
    ensures AnswersBut(ref, {}, s, ops) == RefAnswers(ref, ops)
    decreases |ops|
  {
    if ops != [] {
      NothingEvicted(s, ops[0]);
      NothingLost(RefStep(ref, ops[0]), Step(s, ops[0]).store, ops[1..]);
    }
  }

  lemma {:induction false} EachAnswered(ref: map<string, Entry>, lost: set<string>, s: Store, ops: seq<Op>)
    ensures |AnswersBut(ref, lost, s, ops)| == |RefAnswers(ref, ops)| == |ops|
    decreases |ops|
  {
    if ops != [] {
      EachAnswered(RefStep(ref, ops[0]), LostStep(lost, s, ops[0]), Step(s, ops[0]).store, ops[1..]);
    }
  }

  lemma {:induction false} AnswersOrNone(ref: map<string, Entry>, lost: set<string>, s: Store, ops: seq<Op>, i: nat)
    requires i < |ops| == |AnswersBut(ref, lost, s, ops)| == |RefAnswers(ref, ops)|
    ensures AnswersBut(ref, lost, s, ops)[i] == RefAnswers(ref, ops)[i] || AnswersBut(ref, lost, s, ops)[i] == None
    decreases |ops|
  {
    if i > 0 {
      AnswersOrNone(RefStep(ref, ops[0]), LostStep(lost, s, ops[0]), Step(s, ops[0]).store, ops[1..], i - 1);
    }
  }

  // From a new storage without a base, every lookup answers as the unbounded map does, or not at
  // all; without a limit, as the map does.
  lemma WithoutBaseFromStart(ops: seq<Op>, now: int)
    requires TimedRun(ops, now)
    ensures var answers, expected := Answers(Fresh(None), ops), RefAnswers(map[], ops);
      && |answers| == |expected| == |ops|
      && (forall i :: 0 <= i < |ops| ==> answers[i] == expected[i] || answers[i] == None)
      && (Unlimited(ops) ==> answers == expected)
  {
    WithoutBase(Fresh(None), map[], {}, ops, now);
    EachAnswered(map[], {}, Fresh(None), ops);
    forall i | 0 <= i < |ops|
      ensures Answers(Fresh(None), ops)[i] == RefAnswers(map[], ops)[i] || Answers(Fresh(None), ops)[i] == None
    {
      AnswersOrNone(map[], {}, Fresh(None), ops, i);
    }
    if Unlimited(ops) {
      NothingLost(map[], Fresh(None), ops);
    }
  }

  /* ---------- recently used ---------- */

  // When each name was last added or found.
  function UsedStep(used: map<string, int>, op: Op, answer: Option<Network>): map<string, int> {
    match op
    case Add(batch, now) => map n | n in used.Keys + Ids(batch) :: if n in Ids(batch) then now else used[n]
    case Lookup(name, _, _, last) => if answer.Some? then used[name := last] else used
    case _ => used
  }

  function Used(used: map<string, int>, s: Store, ops: seq<Op>): map<string, int>
    decreases |ops|
  {
    if ops == [] then used
    else Used(UsedStep(used, ops[0], Step(s, ops[0]).answer), Step(s, ops[0]).store, ops[1..])
  }

  ghost predicate StampedAsUsed(t: Tables, used: map<string, int>) {
    forall n :: n in t.access.at ==> n in used && t.access.at[n] == used[n]
  }

  lemma EvictStamped(t: Tables, used: map<string, int>, names: seq<string>)
    requires StampedAsUsed(t, used)
    ensures StampedAsUsed(RemoveAll(t, names), used)
  {
    RemoveAllTables(t, names);
  }

  // The tables as they are before an operation evicts anything.
  function Overfull(s: Store, op: Op): Tables {
    match op
    case Add(batch, now) => InsertAll(s.tables, batch, now)
    case Lookup(name, _, _, last) =>
      if name !in s.tables.reservations.at && s.base.Some? && name in s.base.value then
        Insert(s.tables, name, s.base.value[name], last)
      else s.tables
    case _ => s.tables
  }

  lemma OverfullStamped(s: Store, used: map<string, int>, op: Op)
    requires SameKeys(s.tables) && StampedAsUsed(s.tables, used)
    requires op.Lookup? ==> op.name !in s.tables.reservations.at && Step(s, op).answer.Some?
    ensures SameKeys(Overfull(s, op)) && StampedAsUsed(Overfull(s, op), UsedStep(used, op, Step(s, op).answer))
  {
    match op
    case Add(batch, now) =>
      InsertedAre(s.tables, batch, now);
      InsertAllKeeps(s.tables, batch, now);
    case Lookup(name, first, second, last) =>
      InsertKeeps(s.tables, name, s.base.value[name], last);
    case _ =>
  }

  lemma AddStamped(s: Store, used: map<string, int>, op: Op)
    requires SameKeys(s.tables) && StampedAsUsed(s.tables, used) && op.Add?
    ensures StampedAsUsed(Step(s, op).store.tables, UsedStep(used, op, None))
  {
    if op.batch != [] {
      OverfullStamped(s, used, op);
      EvictStamped(Overfull(s, op), UsedStep(used, op, None), Evicted(Overfull(s, op), s.maxItems, s.threshold));
    }
  }

  lemma CachedStamped(s: Store, used: map<string, int>, op: Op)
    requires StampedAsUsed(s.tables, used) && op.Lookup? && op.name in s.tables.reservations.at
    ensures StampedAsUsed(Step(s, op).store.tables, UsedStep(used, op, Step(s, op).answer))
  {
  }

  // What a lookup that fetches does to the tables.
  lemma Fetched(s: Store, op: Op)
    requires op.Lookup? && op.name !in s.tables.reservations.at && Step(s, op).answer.Some?
    ensures s.base.Some? && op.name in s.base.value
    ensures Overfull(s, op) == Insert(s.tables, op.name, s.base.value[op.name], op.last)
    ensures var evicted := Evicted(Overfull(s, op), s.maxItems, s.threshold);
      && Step(s, op).store.tables == RemoveAll(Overfull(s, op), evicted)
      && Step(s, op).events == [Event(Added, op.name)] + Each(evicted, Removed)
  {
  }

  lemma FetchedStamped(s: Store, used: map<string, int>, op: Op)
    requires SameKeys(s.tables) && StampedAsUsed(s.tables, used)
    requires op.Lookup? && op.name !in s.tables.reservations.at && Step(s, op).answer.Some?
    ensures StampedAsUsed(Step(s, op).store.tables, UsedStep(used, op, Step(s, op).answer))
  {
    Fetched(s, op);
    OverfullStamped(s, used, op);
    EvictStamped(Overfull(s, op), used[op.name := op.last], Evicted(Overfull(s, op), s.maxItems, s.threshold));
  }

  lemma FoundStamped(s: Store, used: map<string, int>, op: Op)
    requires SameKeys(s.tables) && StampedAsUsed(s.tables, used) && op.Lookup?
    ensures StampedAsUsed(Step(s, op).store.tables, UsedStep(used, op, Step(s, op).answer))
  {
    if op.name in s.tables.reservations.at {
      CachedStamped(s, used, op);
    } else if Step(s, op).answer.Some? {
      FetchedStamped(s, used, op);
    } else {
      UncachedLookup(s, op.name, op.first, op.second, op.last);
    }
  }

  lemma StepStamped(s: Store, used: map<string, int>, op: Op)
    requires SameKeys(s.tables) && StampedAsUsed(s.tables, used)
    ensures StampedAsUsed(Step(s, op).store.tables, UsedStep(used, op, Step(s, op).answer))
  {
    match op
    case Add(_, _) => AddStamped(s, used, op);
    case Lookup(_, _, _, _) => FoundStamped(s, used, op);
    case Expire(reading, _, _) => EvictStamped(s.tables, used, ExpiredNames(s.tables.reservations, reading));
    case SetMax(m) => EvictStamped(s.tables, used, Evicted(s.tables, m, Threshold(m)));
    case BaseSweep(_) =>
  }

  lemma {:induction false} RunStamped(s: Store, used: map<string, int>, ops: seq<Op>)
    requires SameKeys(s.tables) && StampedAsUsed(s.tables, used)
    ensures SameKeys(Final(s, ops).tables) && StampedAsUsed(Final(s, ops).tables, Used(used, s, ops))
    decreases |ops|
  {
    if ops != [] {
      StepStamped(s, used, ops[0]);
      StepKeeps(s, ops[0]);
      RunStamped(Step(s, ops[0]).store, UsedStep(used, ops[0], Step(s, ops[0]).answer), ops[1..]);
    }
  }

  // An eviction, by an addition, a new limit or a lookup that fetched from the base.
  predicate Evicts(s: Store, op: Op, name: string) {
    (op.Add? || op.SetMax? || Step(s, op).answer.Some?) && Event(Removed, name) in Step(s, op).events
  }

  lemma OldestPair(t: Tables, maxItems: int, threshold: nat, victim: string, kept: string)
    requires SameKeys(t) && maxItems > 0
    requires victim in Evicted(t, maxItems, threshold)
    requires kept in RemoveAll(t, Evicted(t, maxItems, threshold)).agents
    ensures victim in t.access.at && kept in t.access.at && t.access.at[victim] <= t.access.at[kept]
  {
    EvictionIsLru(t, maxItems, threshold);
  }

  lemma EvictedOldest(t: Tables, maxItems: int, threshold: nat, used: map<string, int>, victim: string, kept: string)
    requires SameKeys(t) && StampedAsUsed(t, used)
    requires victim in Evicted(t, maxItems, threshold)
    requires kept in RemoveAll(t, Evicted(t, maxItems, threshold)).agents
    ensures victim in used && kept in used && used[victim] <= used[kept]
  {
    LimitSet(t, maxItems, threshold, victim);
    OldestPair(t, maxItems, threshold, victim, kept);
  }

  lemma LimitSet(t: Tables, maxItems: int, threshold: nat, victim: string)
    requires victim in Evicted(t, maxItems, threshold)
    ensures maxItems > 0
  {
  }

  // Whatever a run evicts was added or found no later than anything it keeps.
  lemma LeastRecentlyUsed(base: Option<map<string, Entry>>, ops: seq<Op>, op: Op, victim: string, kept: string)
    requires var s := Final(Fresh(base), ops);
      Evicts(s, op, victim) && kept in Step(s, op).store.tables.agents
    ensures var s := Final(Fresh(base), ops);
      var used := UsedStep(Used(map[], Fresh(base), ops), op, Step(s, op).answer);
      victim in used && kept in used && used[victim] <= used[kept]
  {
    var s := Final(Fresh(base), ops);
    RunStamped(Fresh(base), map[], ops);
    OneEviction(s, Used(map[], Fresh(base), ops), op, victim, kept);
  }

  lemma OneEviction(s: Store, used: map<string, int>, op: Op, victim: string, kept: string)
    requires SameKeys(s.tables) && StampedAsUsed(s.tables, used)
    requires Evicts(s, op, victim) && kept in Step(s, op).store.tables.agents
    ensures var used' := UsedStep(used, op, Step(s, op).answer);
      victim in used' && kept in used' && used'[victim] <= used'[kept]
  {
    VictimsAnnounced(s, op, victim);
    OverfullStamped(s, used, op);
    var used' := UsedStep(used, op, Step(s, op).answer);
    EvictedOldest(Overfull(s, op), MaxOf(s, op), ThresholdOf(s, op), used', victim, kept);
  }

  function MaxOf(s: Store, op: Op): int {
    if op.SetMax? then op.maxItems else s.maxItems
  }

  function ThresholdOf(s: Store, op: Op): nat {
    if op.SetMax? then Threshold(op.maxItems) else s.threshold
  }

  lemma VictimsOfAddition(s: Store, op: Op, victim: string)
    requires op.Add? && Evicts(s, op, victim)
    ensures var evicted := Evicted(Overfull(s, op), s.maxItems, s.threshold);
      victim in evicted && Step(s, op).store.tables == RemoveAll(Overfull(s, op), evicted)
  {
    EachIs(Evicted(Overfull(s, op), s.maxItems, s.threshold), Removed);
    EachIs(NamesInBatch(s.tables, op.batch, op.now, true), Added);
    EachIs(NamesInBatch(s.tables, op.batch, op.now, false), Modified);
  }

  lemma VictimsOfLookup(s: Store, op: Op, victim: string)
    requires SameKeys(s.tables) && op.Lookup? && Evicts(s, op, victim)
    ensures op.name !in s.tables.reservations.at
    ensures var evicted := Evicted(Overfull(s, op), s.maxItems, s.threshold);
      victim in evicted && Step(s, op).store.tables == RemoveAll(Overfull(s, op), evicted)
  {
    if op.name in s.tables.reservations.at {
      CachedNeverEvicts(s, op);
    }
    Fetched(s, op);
    EachIs(Evicted(Overfull(s, op), s.maxItems, s.threshold), Removed);
  }

  lemma CachedNeverEvicts(s: Store, op: Op)
    requires op.Lookup? && op.name in s.tables.reservations.at && Step(s, op).answer.Some?
    ensures Step(s, op).events == []
  {
  }

  lemma VictimsAnnounced(s: Store, op: Op, victim: string)
    requires SameKeys(s.tables) && Evicts(s, op, victim)
    ensures op.Lookup? ==> op.name !in s.tables.reservations.at
    ensures var evicted := Evicted(Overfull(s, op), MaxOf(s, op), ThresholdOf(s, op));
      victim in evicted && Step(s, op).store.tables == RemoveAll(Overfull(s, op), evicted)
  {
    match op
    case Add(_, _) => VictimsOfAddition(s, op, victim);
    case Lookup(_, _, _, _) => VictimsOfLookup(s, op, victim);
    case _ => EachIs(Evicted(Overfull(s, op), MaxOf(s, op), ThresholdOf(s, op)), Removed);
  }
}
