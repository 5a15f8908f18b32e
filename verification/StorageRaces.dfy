// What interleaving costs the temporary storage: the exact effect of an eviction that others
// overtake, and schedules in which an answer or an eviction is not the sequential one.
module StorageRaces {
  import opened PyDicts
  import opened TempStorage
  import opened TempStorageRuns
  import opened StorageBounds
  import opened StorageThreads

  const OLD := Entry(Reservation("a", 100), Network("a", Spec("old", 1)))
  const NEW := Entry(Reservation("a", 100), Network("a", Spec("new", 1)))

  // The sequential answer is not kept: a lookup that fetched an entry from the base before it
  // was replaced caches it afterwards, and from then on the old network is served.
  lemma StaleRun() returns (schedule: seq<(nat, Action)>)
    ensures var s := Run(Begin(Some(map["a" := OLD])), schedule);
      && (forall tid :: ThreadOf(s, tid) == Idle)
      && s.store.base == Some(map["a" := NEW])
      && LookupStep(s.store, "a", 4, 4, 4).answer == Some(OLD.network)
  {
    var s0 := Begin(Some(map["a" := OLD]));
    var batch := [(NEW.reservation, NEW.network.spec)];
    var steps: seq<(nat, Action)> := [(0, StartLookup("a")), (0, Continue(1)), (1, StartAdd(batch)),
                                      (1, Continue(2)), (1, Continue(2)), (0, Continue(3)), (0, Continue(3))];
    schedule := steps;
    var s1 := Act(s0, 0, StartLookup("a"));
    var s2 := Act(s1, 0, Continue(1));
    assert ThreadOf(s2, 0) == Caching("a", OLD);
    var s3 := Act(s2, 1, StartAdd(batch));
    NewReplacesOld(batch);
    var s4 := Act(s3, 1, Continue(2));
    var s5 := Act(s4, 1, Continue(2));
    assert ThreadOf(s5, 1) == Idle;
    var s6 := Act(s5, 0, Continue(3));
    var s7 := Act(s6, 0, Continue(3));
    RunSeven(s0, steps);
    assert s7.store.tables.reservations.at["a"] == OLD.reservation;
  }

  lemma NewReplacesOld(batch: Batch)
    requires batch == [(NEW.reservation, NEW.network.spec)]
    ensures AddToBase(map["a" := OLD], batch) == map["a" := NEW]
  {
    assert batch[..0] == [];
    assert EntryOf(batch[0]) == NEW && AddToBase(map["a" := OLD], batch[..0]) == map["a" := OLD];
    assert map["a" := OLD]["a" := NEW] == map["a" := NEW];
  }

  lemma RunSeven(s: State, steps: seq<(nat, Action)>)
    requires |steps| == 7
    ensures Run(s, steps) ==
      Act(Act(Act(Act(Act(Act(Act(s, steps[0].0, steps[0].1), steps[1].0, steps[1].1), steps[2].0, steps[2].1),
          steps[3].0, steps[3].1), steps[4].0, steps[4].1), steps[5].0, steps[5].1), steps[6].0, steps[6].1)
  {
    assert steps == steps[..6] + [steps[6]];
    assert steps[..6] == steps[..5] + [steps[5]];
    assert steps[..5] == steps[..4] + [steps[4]];
    assert steps[..4] == steps[..3] + [steps[3]];
    assert steps[..3] == steps[..2] + [steps[2]];
    assert steps[..2] == steps[..1] + [steps[1]];
    assert steps[..1] == [] + [steps[0]];
    RunSnoc(s, steps[..6], steps[6]);
    RunSnoc(s, steps[..5], steps[5]);
    RunSnoc(s, steps[..4], steps[4]);
    RunSnoc(s, steps[..3], steps[3]);
    RunSnoc(s, steps[..2], steps[2]);
    RunSnoc(s, steps[..1], steps[1]);
    RunSnoc(s, [], steps[0]);
  }

  /* ---------- what a locked eviction leaves ---------- */

  // The access times whose entry is gone.
  function Orphans(t: Tables): set<string> {
    t.access.at.Keys - t.agents.Keys
  }

  lemma SortedIs(t: Tables)
    requires t.access.Valid()
    ensures var sorted := SortByTime(t.access.order, t.access.at);
      Distinct(sorted) && Elements(sorted) == t.access.at.Keys && |sorted| == |t.access.at.Keys|
  {
    var sorted := SortByTime(t.access.order, t.access.at);
    SortMembers(t.access.order, t.access.at);
    SortDistinct(t.access.order, t.access.at);
    assert Elements(sorted) == Elements(t.access.order);
    DistinctSize(sorted);
  }

  // Taking n names out of `all`, whatever part of them is in `agents`.
  lemma TakenOut(agents: set<string>, all: set<string>, victims: set<string>)
    requires agents <= all && victims <= all
    ensures |agents| - |victims| <= |agents - victims| <= |all| - |victims|
    ensures |all| == |agents| + |all - agents|
  {
    SubsetSize(agents - victims, all - victims);
    assert all == (all - victims) + victims;
    assert all == agents + (all - agents);
    SubsetSize(agents * victims, victims);
    assert agents == (agents - victims) + (agents * victims);
  }

  function Min(a: int, b: int): int {
    if a < b then a else b
  }

  lemma VictimsSize(t: Tables, maxItems: int, threshold: nat)
    requires t.access.Valid() && |t.agents| - maxItems > threshold
    ensures var victims := Elements(Victims(t, maxItems, threshold));
      |victims| == Min(|t.agents| - maxItems, |t.access.at.Keys|) && victims <= t.access.at.Keys
  {
    SortedIs(t);
    var sorted, victims := SortByTime(t.access.order, t.access.at), Victims(t, maxItems, threshold);
    assert victims == sorted[..|victims|];
    DistinctPrefix(sorted, |victims|);
    DistinctSize(victims);
    forall v | v in Elements(victims) ensures v in Elements(sorted) {}
  }

  // What a locked eviction leaves of the tables.
  function Left(t: Tables, limit: int, threshold: nat): map<string, Network> {
    RemoveAll(t, Victims(t, limit, threshold)).agents
  }

  lemma Beyond(t: Tables, limit: int, threshold: nat)
    requires t.access.Valid() && t.agents.Keys <= t.access.at.Keys && |t.agents| - limit > threshold
    ensures limit <= |Left(t, limit, threshold).Keys|
    ensures |Left(t, limit, threshold).Keys| == 0 || |Left(t, limit, threshold).Keys| <= limit + |Orphans(t)|
  {
    var victims := Elements(Victims(t, limit, threshold));
    VictimsSize(t, limit, threshold);
    RemoveAllTables(t, Victims(t, limit, threshold));
    assert Left(t, limit, threshold).Keys == t.agents.Keys - victims;
    TakenOut(t.agents.Keys, t.access.at.Keys, victims);
  }

  lemma UpTo(t: Tables, limit: int, threshold: nat)
    requires |t.agents| - limit <= threshold
    ensures Left(t, limit, threshold) == t.agents
  {
    RemoveAllTables(t, Victims(t, limit, threshold));
    assert t.agents - Elements<string>([]) == t.agents;
  }

  lemma LockedLeaves(s: State, tid: nat, now: int)
    requires ThreadOf(s, tid).EvictingLocked?
    ensures Next(s, tid, now).store.tables.agents == Left(s.store.tables, s.store.maxItems, s.store.threshold)
  {
  }

  // The locked block of an eviction under any interleaving, whatever the limit has become since
  // it was looked at: nothing happens up to the threshold; beyond it the names left are at least
  // the limit, and at most the limit and one for every access time that outlived its entry.
  lemma LockedEviction(s: State, tid: nat, now: int)
    requires Safe(s) && ThreadOf(s, tid).EvictingLocked?
    ensures var t, left, limit := s.store.tables, Next(s, tid, now).store.tables.agents, s.store.maxItems;
      && (|t.agents| - limit <= s.store.threshold ==> left == t.agents)
      && (|t.agents| - limit > s.store.threshold ==>
            limit <= |left.Keys| && (|left.Keys| == 0 || |left.Keys| <= limit + |Orphans(t)|))
  {
    var t, limit, threshold := s.store.tables, s.store.maxItems, s.store.threshold;
    LockedLeaves(s, tid, now);
    if |t.agents| - limit > threshold {
      Beyond(t, limit, threshold);
    } else {
      UpTo(t, limit, threshold);
    }
  }

  // Lifting the limit while a thread is between its look at the limit and the lock: without late
  // touches that thread then evicts every network, or none where the threshold is not exceeded.
  lemma LiftedLimitExactly(s: State, tid: nat, now: int)
    requires Safe(s) && ThreadOf(s, tid).EvictingLocked?
    requires s.store.maxItems <= 0 && Orphans(s.store.tables) == {}
    ensures var agents := s.store.tables.agents;
      Next(s, tid, now).store.tables.agents ==
        if |agents| - s.store.maxItems > s.store.threshold then map[] else agents
  {
    LockedEviction(s, tid, now);
    var left := Next(s, tid, now).store.tables.agents;
    assert |left.Keys| == 0 ==> left == map[];
  }

  // A run in which that happens: one network is added under a limit of one, and before the
  // adding thread takes the lock to evict, another thread lifts the limit.
  lemma LiftedLimitRun() returns (schedule: seq<(nat, Action)>)
    ensures var before, after := Run(Begin(Some(map[])), schedule), Run(Begin(Some(map[])), schedule + [(1, Continue(9))]);
      && before.store.maxItems == 0 == after.store.maxItems
      && before.store.tables.agents == map["a" := NEW.network]
      && after.store.tables.agents == map[]
  {
    var s0 := Begin(Some(map[]));
    var d := AddedOne();
    RunSnoc(s0, d, (0, StartSetMax(0)));
    var e := d + [(0, StartSetMax(0))];
    RunSnoc(s0, e, (0, Continue(6)));
    schedule := e + [(0, Continue(6))];
    RunSnoc(s0, schedule, (1, Continue(9)));
    LastEvicts(Run(s0, schedule));
  }

  lemma LastEvicts(s: State)
    requires s.store.tables == OneNetwork() && s.store.maxItems == 0 && s.store.threshold == 0
    requires ThreadOf(s, 1) == EvictingLocked
    ensures s.store.tables.agents == map["a" := NEW.network]
    ensures Act(s, 1, Continue(9)).store.tables.agents == map[] && Act(s, 1, Continue(9)).store.maxItems == 0
  {
    OneNetworkIsVictim();
  }

  lemma AddedOne() returns (schedule: seq<(nat, Action)>)
    ensures var s := Run(Begin(Some(map[])), schedule);
      && s.store.tables == OneNetwork()
      && ThreadOf(s, 0) == Idle && ThreadOf(s, 1) == EvictingLocked
  {
    var s0 := Begin(Some(map[]));
    var limit := LimitOfOne();
    var batch := [(NEW.reservation, NEW.network.spec)];
    RunSnoc(s0, limit, (1, StartAdd(batch)));
    var b := limit + [(1, StartAdd(batch))];
    assert ThreadOf(Run(s0, b), 1) == Adding(batch) && ThreadOf(Run(s0, b), 0) == Idle;
    RunSnoc(s0, b, (1, Continue(4)));
    var c := b + [(1, Continue(4))];
    OnlyNew(batch);
    assert Run(s0, c).store.tables == OneNetwork() && ThreadOf(Run(s0, c), 1) == Evicting;
    RunSnoc(s0, c, (1, Continue(5)));
    schedule := c + [(1, Continue(5))];
  }

  lemma LimitOfOne() returns (schedule: seq<(nat, Action)>)
    ensures Run(Begin(Some(map[])), schedule) ==
      State(Store(NoTables, 1, 1, Some(map[])), map[0 := Idle], {}, map[], [], {})
  {
    var s0 := Begin(Some(map[]));
    var c := LimitSet();
    RunSnoc(s0, c, (0, Continue(3)));
    var d := c + [(0, Continue(3))];
    assert ThreadOf(Run(s0, d), 0) == EvictingLocked && Run(s0, d).store.tables == NoTables;
    RunSnoc(s0, d, (0, Continue(3)));
    schedule := d + [(0, Continue(3))];
    assert Victims(NoTables, 1, 1) == [];
  }

  lemma LimitSet() returns (schedule: seq<(nat, Action)>)
    ensures Run(Begin(Some(map[])), schedule) ==
      State(Store(NoTables, 1, 1, Some(map[])), map[0 := Evicting], {}, map[], [], {})
  {
    var s0 := Begin(Some(map[]));
    assert s0 == State(Fresh(Some(map[])), map[], {}, map[], [], {});
    RunSnoc(s0, [], (0, StartSetMax(1)));
    var a := [] + [(0, StartSetMax(1))];
    assert Run(s0, a) == State(Store(NoTables, 1, 0, Some(map[])), map[0 := ClearingThreshold(1)], {}, map[], [], {});
    RunSnoc(s0, a, (0, Continue(1)));
    var b := a + [(0, Continue(1))];
    assert Run(s0, b) == State(Store(NoTables, 1, 0, Some(map[])), map[0 := SettingThreshold(1)], {}, map[], [], {});
    RunSnoc(s0, b, (0, Continue(2)));
    schedule := b + [(0, Continue(2))];
    ThresholdOfOne();
  }

  lemma ThresholdOfOne()
    ensures Threshold(1) == 1
  {
  }

  function OneNetwork(): Tables {
    Insert(NoTables, "a", NEW, 4)
  }

  lemma OnlyNew(batch: Batch)
    requires batch == [(NEW.reservation, NEW.network.spec)]
    ensures InsertAll(NoTables, batch, 4) == OneNetwork()
  {
    assert batch[..0] == [] && EntryOf(batch[0]) == NEW;
  }

  lemma OneNetworkIsVictim()
    ensures OneNetwork().agents == map["a" := NEW.network]
    ensures RemoveAll(OneNetwork(), Victims(OneNetwork(), 0, 0)).agents == map[]
  {
    InsertKeeps(NoTables, "a", NEW, 4);
    var t := OneNetwork();
    KeysOfPut(NoTables, "a", NEW, 4);
    assert {} + {"a"} == {"a"} && t.agents.Keys == {"a"} && Orphans(t) == {};
    Beyond(t, 0, 0);
    assert |Left(t, 0, 0).Keys| == 0 ==> Left(t, 0, 0) == map[];
  }
}
