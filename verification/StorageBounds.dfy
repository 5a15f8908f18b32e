// What every run of the temporary storage keeps, when its methods run one at a time: evictions
// are least recently used, and the size stays within the limit and its slack.
module StorageBounds {
  import opened PyDicts
  import opened TempStorage
  import opened TempStorageRuns

  /* ---------- the sort is a stable sort ---------- */

  ghost predicate Sorted(s: seq<string>, at: map<string, int>) {
    forall i, j :: 0 <= i < j < |s| ==> TimeOf(at, s[i]) <= TimeOf(at, s[j])
  }

  // The keys stamped t, in their order.
  function StampedAt(s: seq<string>, at: map<string, int>, t: int): seq<string> {
    if s == [] then []
    else StampedAt(s[..|s| - 1], at, t) + if TimeOf(at, s[|s| - 1]) == t then [s[|s| - 1]] else []
  }

  lemma {:induction false} InsertByTimeMembers(s: seq<string>, k: string, at: map<string, int>)
    ensures multiset(InsertByTime(s, k, at)) == multiset(s) + multiset{k}
    ensures forall x :: x in InsertByTime(s, k, at) <==> x in s || x == k
  {
    if s != [] && TimeOf(at, s[|s| - 1]) > TimeOf(at, k) {
      var front, last := s[..|s| - 1], s[|s| - 1];
      InsertByTimeMembers(front, k, at);
      assert s == front + [last];
    }
  }

  lemma {:induction false} InsertByTimeSorted(s: seq<string>, k: string, at: map<string, int>)
    requires Sorted(s, at)
    ensures Sorted(InsertByTime(s, k, at), at)
  {
    if s != [] && TimeOf(at, s[|s| - 1]) > TimeOf(at, k) {
      var front, last := s[..|s| - 1], s[|s| - 1];
      InsertByTimeSorted(front, k, at);
      InsertByTimeMembers(front, k, at);
      var r := InsertByTime(front, k, at);
      forall i | 0 <= i < |r| ensures TimeOf(at, r[i]) <= TimeOf(at, last) {
        assert r[i] in r;
      }
    }
  }

  lemma {:induction false} SortSorted(keys: seq<string>, at: map<string, int>)
    ensures Sorted(SortByTime(keys, at), at)
    ensures multiset(SortByTime(keys, at)) == multiset(keys)
  {
    if keys != [] {
      SortSorted(keys[..|keys| - 1], at);
      InsertByTimeSorted(SortByTime(keys[..|keys| - 1], at), keys[|keys| - 1], at);
      InsertByTimeMembers(SortByTime(keys[..|keys| - 1], at), keys[|keys| - 1], at);
      assert keys == keys[..|keys| - 1] + [keys[|keys| - 1]];
    }
  }

  lemma {:induction false} InsertByTimeStable(s: seq<string>, k: string, at: map<string, int>, t: int)
    requires Sorted(s, at)
    ensures StampedAt(InsertByTime(s, k, at), at, t) == StampedAt(s + [k], at, t)
  {
    assert (s + [k])[..|s|] == s;
    if s != [] && TimeOf(at, s[|s| - 1]) > TimeOf(at, k) {
      var front, last := s[..|s| - 1], s[|s| - 1];
      InsertByTimeStable(front, k, at, t);
      assert (front + [k])[..|front|] == front;
      var r := InsertByTime(front, k, at);
      assert (r + [last])[..|r|] == r;
      if TimeOf(at, last) == t {
        NoneStamped(front + [k], front, k, last, at, t);
      }
    }
  }

  lemma NoneStamped(s: seq<string>, front: seq<string>, k: string, last: string, at: map<string, int>, t: int)
    requires s == front + [k] && TimeOf(at, last) == t && TimeOf(at, k) < t
    ensures StampedAt(s, at, t) == StampedAt(front, at, t)
  {
    assert s[..|s| - 1] == front;
  }

  // Keys with equal times keep the order in which they were inserted.
  lemma {:induction false} SortStable(keys: seq<string>, at: map<string, int>, t: int)
    ensures StampedAt(SortByTime(keys, at), at, t) == StampedAt(keys, at, t)
  {
    if keys != [] {
      var front, last := keys[..|keys| - 1], keys[|keys| - 1];
      var sorted := SortByTime(front, at);
      SortStable(front, at, t);
      SortSorted(front, at);
      InsertByTimeStable(sorted, last, at, t);
      assert (sorted + [last])[..|sorted|] == sorted;
    }
  }

  /* ---------- eviction ---------- */

  lemma {:induction false} InsertByTimeDistinct(s: seq<string>, k: string, at: map<string, int>)
    requires Distinct(s) && k !in s && Sorted(s, at)
    ensures Distinct(InsertByTime(s, k, at))
  {
    if s == [] || TimeOf(at, s[|s| - 1]) <= TimeOf(at, k) {
      DistinctAppend(s, k);
    } else {
      var front, last := s[..|s| - 1], s[|s| - 1];
      InsertByTimeDistinct(front, k, at);
      InsertByTimeMembers(front, k, at);
      DistinctAppend(InsertByTime(front, k, at), last);
    }
  }

  lemma SortMembers(keys: seq<string>, at: map<string, int>)
    ensures forall x :: x in SortByTime(keys, at) <==> x in keys
  {
    SortSorted(keys, at);
    forall x ensures x in SortByTime(keys, at) <==> x in keys {
      assert x in SortByTime(keys, at) <==> x in multiset(SortByTime(keys, at));
      assert x in keys <==> x in multiset(keys);
    }
  }

  lemma {:induction false} SortDistinct(keys: seq<string>, at: map<string, int>)
    requires Distinct(keys)
    ensures Distinct(SortByTime(keys, at))
  {
    if keys != [] {
      var front, last := keys[..|keys| - 1], keys[|keys| - 1];
      SortDistinct(front, at);
      SortSorted(front, at);
      SortMembers(front, at);
      InsertByTimeDistinct(SortByTime(front, at), last, at);
    }
  }

  lemma {:induction false} DistinctPrefix(s: seq<string>, n: nat)
    requires Distinct(s) && n <= |s|
    ensures Distinct(s[..n])
    decreases |s|
  {
    if n < |s| {
      DistinctPrefix(s[..|s| - 1], n);
      assert s[..|s| - 1][..n] == s[..n];
    } else {
      assert s[..n] == s;
    }
  }

  lemma VictimsAre(t: Tables, maxItems: int, threshold: nat)
    requires SameKeys(t) && maxItems > 0 && |t.agents| - maxItems > threshold
    ensures var sorted := SortByTime(t.access.order, t.access.at);
      && |sorted| == |t.agents|
      && Distinct(sorted) && Elements(sorted) == t.agents.Keys
      && Victims(t, maxItems, threshold) == sorted[..|t.agents| - maxItems]
  {
    var sorted := SortByTime(t.access.order, t.access.at);
    SortDistinct(t.access.order, t.access.at);
    SortMembers(t.access.order, t.access.at);
    assert Elements(sorted) == Elements(t.access.order);
    DistinctSize(sorted);
  }

  // An eviction leaves exactly maxItems networks, and nothing it keeps is older than
  // anything it removes.
  lemma EvictionIsLru(t: Tables, maxItems: int, threshold: nat)
    requires SameKeys(t) && maxItems > 0
    ensures var victims := Evicted(t, maxItems, threshold);
      && var t' := RemoveAll(t, victims);
      && |t'.agents| == (if |t.agents| - maxItems > threshold then maxItems else |t.agents|)
      && t'.agents.Keys == t.agents.Keys - Elements(victims)
      && (forall v, k :: v in victims && k in t'.agents ==> v in t.access.at && t.access.at[v] <= t.access.at[k])
  {
    var victims := Evicted(t, maxItems, threshold);
    RemoveAllTables(t, victims);
    assert (t.agents - Elements(victims)).Keys == t.agents.Keys - Elements(victims);
    if |t.agents| - maxItems > threshold {
      VictimsCount(t, maxItems, threshold);
      VictimsOldest(t, maxItems, threshold);
    } else {
      assert Elements(victims) == {};
      assert t.agents - Elements(victims) == t.agents;
    }
  }

  lemma VictimsCount(t: Tables, maxItems: int, threshold: nat)
    requires SameKeys(t) && maxItems > 0 && |t.agents| - maxItems > threshold
    ensures var victims := Elements(Victims(t, maxItems, threshold));
      victims <= t.agents.Keys && |t.agents.Keys - victims| == maxItems
  {
    VictimsAre(t, maxItems, threshold);
    var sorted, victims := SortByTime(t.access.order, t.access.at), Victims(t, maxItems, threshold);
    DistinctPrefix(sorted, |victims|);
    DistinctSize(victims);
    forall v | v in victims ensures v in Elements(sorted) {}
    assert t.agents.Keys == (t.agents.Keys - Elements(victims)) + Elements(victims);
  }

  lemma VictimsOldest(t: Tables, maxItems: int, threshold: nat)
    requires SameKeys(t) && maxItems > 0 && |t.agents| - maxItems > threshold
    ensures var victims := Victims(t, maxItems, threshold);
      forall v, k :: v in victims && k in t.agents && k !in victims ==>
        v in t.access.at && t.access.at[v] <= t.access.at[k]
  {
    VictimsAre(t, maxItems, threshold);
    var sorted, victims := SortByTime(t.access.order, t.access.at), Victims(t, maxItems, threshold);
    SortSorted(t.access.order, t.access.at);
    PrefixIsOldest(sorted, t.access.at, |victims|);
    assert victims == sorted[..|victims|];
    forall v, k | v in victims && k in t.agents && k !in victims
      ensures v in t.access.at && t.access.at[v] <= t.access.at[k]
    {
      assert v in Elements(sorted) && k in Elements(sorted);
      assert TimeOf(t.access.at, v) <= TimeOf(t.access.at, k);
    }
  }

  lemma PrefixIsOldest(sorted: seq<string>, at: map<string, int>, n: nat)
    requires Sorted(sorted, at) && n <= |sorted|
    ensures forall v, k :: v in sorted[..n] && k in sorted && k !in sorted[..n] ==> TimeOf(at, v) <= TimeOf(at, k)
  {
    forall v, k | v in sorted[..n] && k in sorted && k !in sorted[..n]
      ensures TimeOf(at, v) <= TimeOf(at, k)
    {
      var i :| 0 <= i < n && sorted[i] == v;
      var j :| 0 <= j < |sorted| && sorted[j] == k;
      assert j >= n;
    }
  }

  // What holds between operations: equal key sets, a size within the limit and its slack,
  // and access times in the past.
  ghost predicate Sound(s: Store, now: int) {
    Unbounded(s, now) && (s.maxItems > 0 ==> |s.tables.agents| <= s.maxItems + s.threshold)
  }

  lemma {:induction false} InsertAllTimes(t: Tables, batch: Batch, now: int)
    requires forall n :: n in t.access.at ==> t.access.at[n] <= now
    ensures forall n :: n in InsertAll(t, batch, now).access.at ==> InsertAll(t, batch, now).access.at[n] <= now
  {
    if batch != [] {
      InsertAllTimes(t, batch[..|batch| - 1], now);
    }
  }

  // The same without the bound on the size, as it is before an eviction.
  ghost predicate Unbounded(s: Store, now: int) {
    && SameKeys(s.tables)
    && s.threshold == Threshold(s.maxItems)
    && (forall n :: n in s.tables.access.at ==> s.tables.access.at[n] <= now)
  }

  lemma EvictSound(s: Store, now: int)
    requires Unbounded(s, now)
    ensures Sound(Evict(s).store, now)
  {
    EvictKeeps(s);
    RemoveAllTables(s.tables, Evicted(s.tables, s.maxItems, s.threshold));
    if s.maxItems > 0 {
      EvictionIsLru(s.tables, s.maxItems, s.threshold);
    }
  }

  lemma FewerAgents(t: Tables, names: seq<string>)
    ensures |RemoveAll(t, names).agents| <= |t.agents|
  {
    RemoveAllTables(t, names);
    assert (t.agents - Elements(names)).Keys <= t.agents.Keys;
    SubsetSize((t.agents - Elements(names)).Keys, t.agents.Keys);
  }

  lemma {:induction false} SubsetSize(a: set<string>, b: set<string>)
    requires a <= b
    ensures |a| <= |b|
  {
    assert b == a + (b - a);
  }

  lemma CachedLookupSound(s: Store, name: string, first: int, second: int, last: int, now: int)
    requires Sound(s, now) && now <= last && name in s.tables.reservations.at
    ensures Sound(LookupStep(s, name, first, second, last).store, last)
  {
    LookupKeeps(s, name, first, second, last);
    if IsExpired(s.tables.reservations.at[name], first) {
      RemovedSound(s, name, now, last);
    } else {
      TouchedSound(s, name, now, last);
    }
  }

  lemma RemovedSound(s: Store, name: string, now: int, last: int)
    requires Sound(s, now) && now <= last
    ensures Sound(s.(tables := Remove(s.tables, name)), last)
  {
    RemoveKeeps(s.tables, name);
    SubsetSize(s.tables.agents.Keys - {name}, s.tables.agents.Keys);
    assert (s.tables.agents - {name}).Keys == s.tables.agents.Keys - {name};
  }

  lemma TouchedSound(s: Store, name: string, now: int, last: int)
    requires Sound(s, now) && now <= last && name in s.tables.agents
    requires SameKeys(Touch(s.tables, name, last))
    ensures Sound(s.(tables := Touch(s.tables, name, last)), last)
  {
  }

  lemma InsertedBound(s: Store, name: string, e: Entry, last: int, now: int)
    requires Unbounded(s, now) && now <= last
    ensures Unbounded(Cached(s, name, e, last), last)
  {
    InsertKeeps(s.tables, name, e, last);
  }

  lemma LookupSound(s: Store, name: string, first: int, second: int, last: int, now: int)
    requires Sound(s, now) && now <= first <= second <= last
    ensures Sound(LookupStep(s, name, first, second, last).store, last)
  {
    if name in s.tables.reservations.at {
      CachedLookupSound(s, name, first, second, last, now);
    } else if s.base.Some? && FromBase(s.base.value, name, first).Some? {
      var e := FromBase(s.base.value, name, first).value;
      InsertedBound(s, name, e, last, now);
      EvictSound(Cached(s, name, e, last), last);
    }
  }

  lemma AddSound(s: Store, batch: Batch, t: int, now: int)
    requires Sound(s, now) && now <= t
    ensures Sound(AddStep(s, batch, t).store, t)
  {
    if batch != [] {
      InsertAllKeeps(s.tables, batch, t);
      InsertAllTimes(s.tables, batch, t);
      EvictSound(s.(tables := InsertAll(s.tables, batch, t)), t);
    }
  }

  lemma StepSound(s: Store, op: Op, now: int)
    requires Sound(s, now) && Timed(op, now)
    ensures Sound(Step(s, op).store, EndOf(op, now))
  {
    match op
    case Add(batch, t) => AddSound(s, batch, t, now);
    case Lookup(name, first, second, last) => LookupSound(s, name, first, second, last, now);
    case Expire(reading, lo, hi) =>
      var expired := ExpiredNames(s.tables.reservations, reading);
      RemoveAllKeeps(s.tables, expired);
      RemoveAllTables(s.tables, expired);
      FewerAgents(s.tables, expired);
    case SetMax(m) => EvictSound(s.(maxItems := m, threshold := Threshold(m)), now);
    case BaseSweep(t) =>
  }

  // In every run, with or without a base storage, the four key sets are equal and the size is
  // at most the limit plus its slack.
  lemma {:induction false} RunSound(s: Store, ops: seq<Op>, now: int)
    requires Sound(s, now) && TimedRun(ops, now)
    ensures Sound(Final(s, ops), EndOfRun(ops, now))
    decreases |ops|
  {
    if ops != [] {
      StepSound(s, ops[0], now);
      RunSound(Step(s, ops[0]).store, ops[1..], EndOf(ops[0], now));
    }
  }

  // From a new storage on.
  lemma SoundFromStart(base: Option<map<string, Entry>>, ops: seq<Op>, now: int)
    requires TimedRun(ops, now)
    ensures Sound(Final(Fresh(base), ops), EndOfRun(ops, now))
  {
    RunSound(Fresh(base), ops, now);
  }

  // A network that a lookup has just handed out is still cached, even when every entry bears
  // the same time: the newcomer is last in the table, and the sort is stable.
  lemma FetchedSurvives(s: Store, name: string, first: int, second: int, last: int, now: int)
    requires Sound(s, now) && now <= first <= second <= last
    requires LookupStep(s, name, first, second, last).answer.Some?
    ensures name in LookupStep(s, name, first, second, last).store.tables.agents
  {
    if name !in s.tables.reservations.at {
      NewestKept(s.tables, name, FromBase(s.base.value, name, first).value, last, s.maxItems, s.threshold);
    }
  }

  lemma NewestKept(t: Tables, name: string, e: Entry, last: int, maxItems: int, threshold: nat)
    requires SameKeys(t) && name !in t.agents
    requires forall k :: k in t.access.at ==> t.access.at[k] <= last
    ensures var t' := Insert(t, name, e, last);
      name in RemoveAll(t', Evicted(t', maxItems, threshold)).agents
  {
    var t' := Insert(t, name, e, last);
    var victims := Evicted(t', maxItems, threshold);
    InsertKeeps(t, name, e, last);
    AgentsOfPut(t, name, e, last);
    RemoveAllTables(t', victims);
    if maxItems > 0 && |t'.agents| - maxItems > threshold {
      VictimsAre(t', maxItems, threshold);
      NewestSortsLast(t.access.order, name, t'.access.at);
      LastNotBefore(SortByTime(t'.access.order, t'.access.at), |victims|);
    }
  }

  lemma LastNotBefore(s: seq<string>, n: nat)
    requires Distinct(s) && n < |s|
    ensures s[|s| - 1] !in s[..n]
  {
    assert s[..n] == s[..|s| - 1][..n];
  }

  lemma NewestSortsLast(order: seq<string>, name: string, at: map<string, int>)
    requires forall k :: k in order ==> TimeOf(at, k) <= TimeOf(at, name)
    ensures SortByTime(order + [name], at) == SortByTime(order, at) + [name]
  {
    assert (order + [name])[..|order|] == order;
    SortSorted(order, at);
    var sorted := SortByTime(order, at);
    if sorted != [] {
      assert sorted[|sorted| - 1] in multiset(sorted);
    }
  }
}
