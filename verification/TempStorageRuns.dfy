// Runs of the temporary storage, when its methods run one at a time: lookups answer as the
// unbounded map would, whatever the limit.
module TempStorageRuns {
  import opened PyDicts
  import opened TempStorage

  /* ---------- runs ---------- */

  // Clock readings never go back: an operation that starts at `now` reads no earlier time.
  ghost predicate Timed(op: Op, now: int) {
    match op
    case Add(_, t) => now <= t
    case Lookup(_, first, second, last) => now <= first <= second <= last
    case Expire(reading, lo, hi) => now <= lo <= hi && forall n :: lo <= reading(n) <= hi
    case SetMax(_) => true
    case BaseSweep(t) => now <= t
  }

  function EndOf(op: Op, now: int): int {
    match op
    case Add(_, t) => t
    case Lookup(_, _, _, last) => last
    case Expire(_, _, hi) => hi
    case SetMax(_) => now
    case BaseSweep(t) => t
  }

  ghost predicate TimedRun(ops: seq<Op>, now: int) {
    ops == [] || (Timed(ops[0], now) && TimedRun(ops[1..], EndOf(ops[0], now)))
  }

  function Answers(s: Store, ops: seq<Op>): seq<Option<Network>>
    decreases |ops|
  {
    if ops == [] then []
    else [Step(s, ops[0]).answer] + Answers(Step(s, ops[0]).store, ops[1..])
  }

  function Final(s: Store, ops: seq<Op>): Store
    decreases |ops|
  {
    if ops == [] then s else Final(Step(s, ops[0]).store, ops[1..])
  }

  function Told(s: Store, ops: seq<Op>): seq<Event>
    decreases |ops|
  {
    if ops == [] then []
    else Step(s, ops[0]).events + Told(Step(s, ops[0]).store, ops[1..])
  }

  function EndOfRun(ops: seq<Op>, now: int): int {
    if ops == [] then now else EndOfRun(ops[1..], EndOf(ops[0], now))
  }

  /* ---------- the map the cache stands for ---------- */

  // Only adding changes it; it never forgets, and it hides what is expired.
  function RefStep(ref: map<string, Entry>, op: Op): map<string, Entry> {
    if op.Add? then AddToBase(ref, op.batch) else ref
  }

  function Visible(ref: map<string, Entry>, name: string, t: int): Option<Network> {
    if name in ref && t <= ref[name].reservation.expires then Some(ref[name].network) else None
  }

  // The answer is the map's answer at one of the two moments the lookup checked the clock.
  predicate Explained(ref: map<string, Entry>, op: Op, answer: Option<Network>) {
    if op.Lookup? then
      answer == Visible(ref, op.name, op.first) || answer == Visible(ref, op.name, op.second)
    else answer == None
  }

  predicate ExplainedRun(ref: map<string, Entry>, ops: seq<Op>, answers: seq<Option<Network>>)
    decreases |ops|
  {
    |answers| == |ops| &&
    (ops == [] || (Explained(ref, ops[0], answers[0]) && ExplainedRun(RefStep(ref, ops[0]), ops[1..], answers[1..])))
  }

  ghost predicate CacheAgrees(t: Tables, ref: map<string, Entry>) {
    forall n :: n in t.reservations.at ==>
      n in ref && t.reservations.at[n] == ref[n].reservation && n in t.agents && t.agents[n] == ref[n].network
  }

  ghost predicate BaseAgrees(base: map<string, Entry>, ref: map<string, Entry>, now: int) {
    && (forall n :: n in base ==> n in ref && base[n] == ref[n])
    && (forall n :: n in ref ==> n in base || IsExpired(ref[n].reservation, now))
  }

  ghost predicate Agree(s: Store, ref: map<string, Entry>, now: int) {
    s.base.Some? && BaseAgrees(s.base.value, ref, now) && CacheAgrees(s.tables, ref)
  }

  lemma {:induction false} AddAgrees(t: Tables, ref: map<string, Entry>, batch: Batch, now: int)
    requires CacheAgrees(t, ref)
    ensures CacheAgrees(InsertAll(t, batch, now), AddToBase(ref, batch))
  {
    if batch != [] {
      AddAgrees(t, ref, batch[..|batch| - 1], now);
    }
  }

  lemma {:induction false} AddBaseAgrees(base: map<string, Entry>, ref: map<string, Entry>, batch: Batch, now: int)
    requires BaseAgrees(base, ref, now)
    ensures BaseAgrees(AddToBase(base, batch), AddToBase(ref, batch), now)
  {
    if batch != [] {
      AddBaseAgrees(base, ref, batch[..|batch| - 1], now);
    }
  }

  lemma RemoveAgrees(t: Tables, ref: map<string, Entry>, names: seq<string>)
    requires CacheAgrees(t, ref)
    ensures CacheAgrees(RemoveAll(t, names), ref)
  {
    RemoveAllTables(t, names);
  }

  lemma EvictAgrees(s: Store, ref: map<string, Entry>, now: int)
    requires Agree(s, ref, now)
    ensures Agree(Evict(s).store, ref, now)
  {
    RemoveAgrees(s.tables, ref, Evicted(s.tables, s.maxItems, s.threshold));
  }

  lemma LookupAgrees(s: Store, ref: map<string, Entry>, name: string, first: int, second: int, last: int, now: int)
    requires Agree(s, ref, now) && now <= first <= second <= last
    ensures Agree(LookupStep(s, name, first, second, last).store, ref, last)
    ensures LookupStep(s, name, first, second, last).answer ==
      Visible(ref, name, if name in s.tables.reservations.at then first else second)
  {
    if name in s.tables.reservations.at {
    } else {
      var found := FromBase(s.base.value, name, first);
      if found.Some? && !IsExpired(found.value.reservation, second) {
        EvictAgrees(Cached(s, name, found.value, last), ref, last);
      }
    }
  }

  lemma StepAgrees(s: Store, ref: map<string, Entry>, op: Op, now: int)
    requires Agree(s, ref, now) && Timed(op, now)
    ensures Agree(Step(s, op).store, RefStep(ref, op), EndOf(op, now))
    ensures Explained(ref, op, Step(s, op).answer)
  {
    match op
    case Add(batch, t) =>
      if batch != [] {
        AddAgrees(s.tables, ref, batch, t);
        AddBaseAgrees(s.base.value, ref, batch, t);
        var overfull := InsertAll(s.tables, batch, t);
        RemoveAgrees(overfull, AddToBase(ref, batch), Evicted(overfull, s.maxItems, s.threshold));
      }
    case Lookup(name, first, second, last) => LookupAgrees(s, ref, name, first, second, last, now);
    case Expire(reading, lo, hi) => RemoveAgrees(s.tables, ref, ExpiredNames(s.tables.reservations, reading));
    case SetMax(m) => EvictAgrees(s.(maxItems := m, threshold := Threshold(m)), ref, now);
    case BaseSweep(t) =>
  }

  // Cache transparency: in every run over a faithful base, every lookup is answered as by the
  // unbounded map that hides expired entries, whatever the limit on the number of networks.
  lemma {:induction false} Transparent(s: Store, ref: map<string, Entry>, ops: seq<Op>, now: int)
    requires Agree(s, ref, now) && TimedRun(ops, now)
    ensures ExplainedRun(ref, ops, Answers(s, ops))
    decreases |ops|
  {
    if ops != [] {
      StepAgrees(s, ref, ops[0], now);
      Transparent(Step(s, ops[0]).store, RefStep(ref, ops[0]), ops[1..], EndOf(ops[0], now));
      assert Answers(s, ops)[1..] == Answers(Step(s, ops[0]).store, ops[1..]);
    }
  }

  lemma TransparentFromStart(ops: seq<Op>, now: int)
    requires TimedRun(ops, now)
    ensures ExplainedRun(map[], ops, Answers(Fresh(Some(map[])), ops))
  {
    Transparent(Fresh(Some(map[])), map[], ops, now);
  }

  // When no lookup straddles an expiry, the answers do not depend on the cache at all: two
  // storages over the same map, with any limits and any contents, give the same answers.
  ghost predicate Instant(ops: seq<Op>) {
    forall i :: 0 <= i < |ops| && ops[i].Lookup? ==> ops[i].first == ops[i].second
  }

  lemma {:induction false} EvictionInvisible(s1: Store, s2: Store, ref: map<string, Entry>, ops: seq<Op>, now: int)
    requires Agree(s1, ref, now) && Agree(s2, ref, now)
    requires TimedRun(ops, now) && Instant(ops)
    ensures Answers(s1, ops) == Answers(s2, ops)
    decreases |ops|
  {
    if ops != [] {
      StepAgrees(s1, ref, ops[0], now);
      StepAgrees(s2, ref, ops[0], now);
      EvictionInvisible(Step(s1, ops[0]).store, Step(s2, ops[0]).store, RefStep(ref, ops[0]), ops[1..], EndOf(ops[0], now));
    }
  }
}
