// The storage of permanent networks and what it tells its listeners (agent_network_storage.py).
module NetworkStorage {
  import opened PyDicts
  import opened TempStorage
  import opened Listeners

  // What one change sends: the same event to every listener, in the order they registered.
  function Broadcast(listeners: seq<nat>, e: Event): seq<(nat, Event)> {
    if listeners == [] then [] else Broadcast(listeners[..|listeners| - 1], e) + [(listeners[|listeners| - 1], e)]
  }

  function BroadcastAll(listeners: seq<nat>, events: seq<Event>): seq<(nat, Event)> {
    if events == [] then []
    else BroadcastAll(listeners, events[..|events| - 1]) + Broadcast(listeners, events[|events| - 1])
  }

  // Each registration is told, in the order they were made.
  lemma {:induction false} BroadcastIs(listeners: seq<nat>, e: Event)
    ensures |Broadcast(listeners, e)| == |listeners|
    ensures forall i :: 0 <= i < |listeners| ==> Broadcast(listeners, e)[i] == (listeners[i], e)
  {
    if listeners != [] {
      BroadcastIs(listeners[..|listeners| - 1], e);
    }
  }

  lemma BroadcastSnoc(listeners: seq<nat>, events: seq<Event>, e: Event)
    ensures BroadcastAll(listeners, events + [e]) == BroadcastAll(listeners, events) + Broadcast(listeners, e)
  {
    assert (events + [e])[..|events|] == events;
  }

  // What one listener hears of it.
  function HeardBy(told: seq<(nat, Event)>, listener: nat): seq<Event> {
    if told == [] then []
    else
      var last := told[|told| - 1];
      HeardBy(told[..|told| - 1], listener) + if last.0 == listener then [last.1] else []
  }

  function Registrations(listeners: seq<nat>, listener: nat): nat {
    if listeners == [] then 0
    else
      Registrations(listeners[..|listeners| - 1], listener) + if listeners[|listeners| - 1] == listener then 1 else 0
  }

  function Repeated(e: Event, times: nat): seq<Event> {
    seq(times, _ => e)
  }

  // Every event as often as the listener registered.
  function EachRepeated(events: seq<Event>, times: nat): seq<Event> {
    if events == [] then []
    else EachRepeated(events[..|events| - 1], times) + Repeated(events[|events| - 1], times)
  }

  lemma {:induction false} HeardAppend(a: seq<(nat, Event)>, b: seq<(nat, Event)>, listener: nat)
    ensures HeardBy(a + b, listener) == HeardBy(a, listener) + HeardBy(b, listener)
  {
    if b == [] {
      assert a + b == a;
    } else {
      var front := b[..|b| - 1];
      assert (a + b)[..|a + b| - 1] == a + front;
      HeardAppend(a, front, listener);
      var own := if b[|b| - 1].0 == listener then [b[|b| - 1].1] else [];
      Regroup(HeardBy(a, listener), HeardBy(front, listener), own);
    }
  }

  lemma {:induction false} HeardOnce(listeners: seq<nat>, e: Event, listener: nat)
    ensures HeardBy(Broadcast(listeners, e), listener) == Repeated(e, Registrations(listeners, listener))
  {
    if listeners != [] {
      var front, last := listeners[..|listeners| - 1], listeners[|listeners| - 1];
      HeardOnce(front, e, listener);
      assert Broadcast(listeners, e)[..|Broadcast(listeners, e)| - 1] == Broadcast(front, e);
      if last == listener {
        assert Repeated(e, Registrations(front, listener)) + [e] == Repeated(e, Registrations(listeners, listener));
      }
    }
  }

  lemma {:induction false} HeardIsRepeated(listeners: seq<nat>, events: seq<Event>, listener: nat)
    ensures HeardBy(BroadcastAll(listeners, events), listener) == EachRepeated(events, Registrations(listeners, listener))
  {
    if events != [] {
      var front, last := events[..|events| - 1], events[|events| - 1];
      HeardIsRepeated(listeners, front, listener);
      HeardAppend(BroadcastAll(listeners, front), Broadcast(listeners, last), listener);
      HeardOnce(listeners, last, listener);
    }
  }

  lemma {:induction false} RepeatedOnce(events: seq<Event>)
    ensures EachRepeated(events, 1) == events
  {
    if events != [] {
      RepeatedOnce(events[..|events| - 1]);
      assert Repeated(events[|events| - 1], 1) == [events[|events| - 1]];
      assert events == events[..|events| - 1] + [events[|events| - 1]];
    }
  }

  // A listener registered once hears exactly the storage's changes, so it can rebuild the names.
  lemma RegisteredOnceHearsAll(listeners: seq<nat>, events: seq<Event>, listener: nat, before: set<string>)
    requires Registrations(listeners, listener) == 1
    ensures Replay(HeardBy(BroadcastAll(listeners, events), listener), before) == Replay(events, before)
  {
    HeardIsRepeated(listeners, events, listener);
    RepeatedOnce(events);
  }

  // One registered more often cannot: the second copy of an addition makes no sense to it.
  lemma RegisteredTwiceIsConfused(listeners: seq<nat>, listener: nat, name: string, before: set<string>)
    requires Registrations(listeners, listener) >= 2 && name !in before
    ensures Replay(HeardBy(Broadcast(listeners, Event(Added, name)), listener), before) == None
  {
    var e, n := Event(Added, name), Registrations(listeners, listener);
    HeardOnce(listeners, e, listener);
    assert Repeated(e, n)[1..] == Repeated(e, n - 1);
    assert Repeated(e, n - 1)[0] == e;
  }

  // Whatever is announced, and from whatever names, what the listener hears replays as it does.
  ghost predicate HearsTruly(listeners: seq<nat>, listener: nat) {
    forall events, before :: ReplaysTruly(listeners, listener, events, before)
  }

  predicate ReplaysTruly(listeners: seq<nat>, listener: nat, events: seq<Event>, before: set<string>) {
    Replay(HeardBy(BroadcastAll(listeners, events), listener), before) == Replay(events, before)
  }

  // A listener can follow the storage exactly when it is registered exactly once.
  lemma HearsTrulyExactly(listeners: seq<nat>, listener: nat)
    ensures HearsTruly(listeners, listener) <==> Registrations(listeners, listener) == 1
  {
    if Registrations(listeners, listener) == 1 {
      forall events: seq<Event>, before: set<string>
        ensures ReplaysTruly(listeners, listener, events, before)
      {
        RegisteredOnceHearsAll(listeners, events, listener, before);
      }
    } else {
      var e := Event(Added, "");
      OneAnnounced(listeners, listener, e);
      ReplayOne(Added, "", {});
      assert {} + {""} == {""} && Replay([e], {}) == Some({""});
      if Registrations(listeners, listener) == 0 {
        assert Repeated(e, 0) == [];
      } else {
        RegisteredTwiceIsConfused(listeners, listener, "", {});
      }
      assert !ReplaysTruly(listeners, listener, [e], {});
    }
  }

  lemma OneAnnounced(listeners: seq<nat>, listener: nat, e: Event)
    ensures BroadcastAll(listeners, [e]) == Broadcast(listeners, e)
    ensures HeardBy(BroadcastAll(listeners, [e]), listener) == Repeated(e, Registrations(listeners, listener))
  {
    HeardOnce(listeners, e, listener);
    BroadcastSnoc(listeners, [], e);
    assert [] + [e] == [e];
    assert [] + Broadcast(listeners, e) == Broadcast(listeners, e);
  }

  /* ---------- the program ---------- */

  class AgentNetworkStorage {
    var agentsTable: map<string, Network>
    var listeners: seq<nat>
    var told: seq<(nat, Event)>     // every call made to a listener
    ghost var events: seq<Event>    // every change announced
    ghost var orderly: bool         // no name was removed that was not there

    // The announcements rebuild the names, unless an absent name was removed; then, never again.
    ghost predicate Valid()
      reads this
    {
      Replay(events, {}) == if orderly then Some(agentsTable.Keys) else None
    }

    constructor ()
      ensures Valid() && agentsTable == map[] && listeners == [] && told == [] && events == [] && orderly
    {
      agentsTable, listeners, told, events, orderly := map[], [], [], [], true;
      new;
      assert agentsTable.Keys == {};
    }

    method AddListener(listener: nat)
      modifies this`listeners
      ensures listeners == old(listeners) + [listener]
    {
      listeners := listeners + [listener];
    }

    // The notification loop.
    method Announce(e: Event)
      modifies this`told, this`events
      ensures told == old(told) + Broadcast(listeners, e)
      ensures events == old(events) + [e]
    {
      for i := 0 to |listeners|
        invariant told == old(told) + Broadcast(listeners[..i], e)
        invariant events == old(events)
      {
        assert listeners[..i + 1][..i] == listeners[..i];
        told := told + [(listeners[i], e)];
      }
      assert listeners[..|listeners|] == listeners;
      events := events + [e];
    }

    method AddAgentNetwork(name: string, network: Network)
      requires Valid()
      modifies this
      ensures Valid() && orderly == old(orderly) && listeners == old(listeners)
      ensures agentsTable == old(agentsTable)[name := network]
      ensures var e := Event(if name in old(agentsTable) then Modified else Added, name);
        events == old(events) + [e] && told == old(told) + Broadcast(listeners, e)
    {
      var isNew := name !in agentsTable;
      agentsTable := agentsTable[name := network];
      Announce(Event(if isNew then Added else Modified, name));
      OneMore(old(events), Event(if isNew then Added else Modified, name), orderly, old(agentsTable.Keys));
      assert agentsTable.Keys == old(agentsTable.Keys) + {name};
    }

    method RemoveAgentNetwork(name: string)
      requires Valid()
      modifies this
      ensures Valid() && orderly == (old(orderly) && name in old(agentsTable)) && listeners == old(listeners)
      ensures agentsTable == old(agentsTable) - {name}
      ensures events == old(events) + [Event(Removed, name)]
      ensures told == old(told) + Broadcast(listeners, Event(Removed, name))
    {
      orderly := orderly && name in agentsTable;
      agentsTable := agentsTable - {name};
      Announce(Event(Removed, name));
      OneMore(old(events), Event(Removed, name), old(orderly), old(agentsTable.Keys));
    }

    // The first loop of setup_agent_networks; a set is taken in any order.
    method RemoveEach(gone: set<string>) returns (ghost order: seq<string>)
      requires Valid() && gone <= agentsTable.Keys
      modifies this
      ensures Valid() && orderly == old(orderly) && listeners == old(listeners)
      ensures agentsTable == old(agentsTable) - gone
      ensures Takes(order, gone, {})
      ensures Announces(old(events), old(told), events, told, listeners, Each(order, Removed))
    {
      order := [];
      var left := gone;
      while left != {}
        invariant listeners == old(listeners) && Valid() && orderly == old(orderly)
        invariant Takes(order, gone, left)
        invariant agentsTable == Lessened(old(agentsTable), order)
        invariant Announces(old(events), old(told), events, told, listeners, Each(order, Removed))
      {
        var name :| name in left;
        AnnouncesMore(old(events), old(told), events, told, listeners, Each(order, Removed), Event(Removed, name));
        TakesNext(order, gone, left, name, {});
        LessenedIs(old(agentsTable), order);
        assert name in agentsTable;
        RemoveAgentNetwork(name);
        order := order + [name];
        left := left - {name};
      }
      LessenedIs(old(agentsTable), order);
    }

    // The second loop.
    method AddEach(networks: map<string, Network>) returns (ghost order: seq<string>)
      requires Valid()
      modifies this
      ensures Valid() && orderly == old(orderly) && listeners == old(listeners)
      ensures agentsTable == old(agentsTable) + networks
      ensures Takes(order, networks.Keys, {})
      ensures Announces(old(events), old(told), events, told, listeners, Put(order, old(agentsTable).Keys))
    {
      order := [];
      var left := networks.Keys;
      ghost var had := agentsTable.Keys;
      while left != {}
        invariant listeners == old(listeners) && Valid() && orderly == old(orderly)
        invariant Takes(order, networks.Keys, left)
        invariant agentsTable == Filled(old(agentsTable), networks, order)
        invariant Announces(old(events), old(told), events, told, listeners, Put(order, had))
      {
        var name :| name in left;
        ghost var e := Event(if name in had then Modified else Added, name);
        AnnouncesMore(old(events), old(told), events, told, listeners, Put(order, had), e);
        TakesNext(order, networks.Keys, left, name, had);
        FilledIs(old(agentsTable), networks, order);
        assert name in agentsTable <==> name in had;
        AddAgentNetwork(name, networks[name]);
        order := order + [name];
        left := left - {name};
      }
      FilledIs(old(agentsTable), networks, order);
      assert Only(networks, networks.Keys) == networks;
    }

    // Afterwards the table is the given collection, and what was announced rebuilds its names.
    method SetupAgentNetworks(agentNetworks: map<string, Network>) returns (ghost made: seq<Event>)
      requires Valid()
      modifies this
      ensures Valid() && orderly == old(orderly) && listeners == old(listeners)
      ensures agentsTable == agentNetworks
      ensures Announces(old(events), old(told), events, told, listeners, made)
      ensures Replay(made, old(agentsTable).Keys) == Some(agentNetworks.Keys)
      ensures Switches(made, old(agentsTable).Keys, agentNetworks.Keys)
    {
      ghost var had, has := agentsTable.Keys, agentNetworks.Keys;
      ghost var first := RemoveEach(agentsTable.Keys - agentNetworks.Keys);
      assert agentsTable.Keys == had * has;
      assert agentsTable + agentNetworks == agentNetworks;
      ghost var events1, told1 := events, told;
      ghost var second := AddEach(agentNetworks);
      made := Each(first, Removed) + Put(second, had * has);
      AnnouncesBoth(old(events), old(told), events1, told1, events, told, listeners,
                    Each(first, Removed), Put(second, had * has));
      SwitchReplays(first, second, had, has);
      SwitchIs(first, second, had, has);
    }
  }

  // What was announced between two moments, to the listeners there were.
  ghost predicate Announces(events0: seq<Event>, told0: seq<(nat, Event)>, events: seq<Event>, told: seq<(nat, Event)>,
                            listeners: seq<nat>, made: seq<Event>)
  {
    events == events0 + made && told == told0 + BroadcastAll(listeners, made)
  }

  lemma AnnouncesMore(events0: seq<Event>, told0: seq<(nat, Event)>, events: seq<Event>, told: seq<(nat, Event)>,
                      listeners: seq<nat>, made: seq<Event>, e: Event)
    requires Announces(events0, told0, events, told, listeners, made)
    ensures Announces(events0, told0, events + [e], told + Broadcast(listeners, e), listeners, made + [e])
  {
    BroadcastSnoc(listeners, made, e);
    Regroup(events0, made, [e]);
    Regroup(told0, BroadcastAll(listeners, made), Broadcast(listeners, e));
  }

  lemma AnnouncesBoth(events0: seq<Event>, told0: seq<(nat, Event)>, events1: seq<Event>, told1: seq<(nat, Event)>,
                      events: seq<Event>, told: seq<(nat, Event)>, listeners: seq<nat>, a: seq<Event>, b: seq<Event>)
    requires Announces(events0, told0, events1, told1, listeners, a)
    requires Announces(events1, told1, events, told, listeners, b)
    ensures Announces(events0, told0, events, told, listeners, a + b)
  {
    BroadcastAppend(listeners, a, b);
    Regroup(events0, a, b);
    Regroup(told0, BroadcastAll(listeners, a), BroadcastAll(listeners, b));
  }

  // The names of a set in some order, but for those left.
  ghost predicate Takes(order: seq<string>, names: set<string>, left: set<string>) {
    Distinct(order) && left <= names && Elements(order) == names - left
  }

  lemma TakesNext(order: seq<string>, names: set<string>, left: set<string>, name: string, had: set<string>)
    requires Takes(order, names, left) && name in left
    ensures name in names && name !in Elements(order)
    ensures Takes(order + [name], names, left - {name})
    ensures (order + [name])[..|order|] == order
    ensures Each(order + [name], Removed) == Each(order, Removed) + [Event(Removed, name)]
    ensures Put(order + [name], had) == Put(order, had) + [Event(if name in had then Modified else Added, name)]
  {
    assert name !in Elements(order);
    DistinctAppend(order, name);
    ElementsAppend(order, name);
    assert (order + [name])[..|order|] == order;
  }

  function Lessened(table: map<string, Network>, order: seq<string>): map<string, Network> {
    if order == [] then table else Lessened(table, order[..|order| - 1]) - {order[|order| - 1]}
  }

  function Filled(table: map<string, Network>, networks: map<string, Network>, order: seq<string>): map<string, Network> {
    if order == [] then table
    else
      var before, name := Filled(table, networks, order[..|order| - 1]), order[|order| - 1];
      if name in networks then before[name := networks[name]] else before
  }

  lemma {:induction false} LessenedIs(table: map<string, Network>, order: seq<string>)
    ensures Lessened(table, order) == table - Elements(order)
  {
    if order != [] {
      var front, last := order[..|order| - 1], order[|order| - 1];
      LessenedIs(table, front);
      assert order == front + [last];
      ElementsAppend(front, last);
    }
  }

  lemma {:induction false} FilledIs(table: map<string, Network>, networks: map<string, Network>, order: seq<string>)
    ensures Filled(table, networks, order) == table + Only(networks, Elements(order))
  {
    if order != [] {
      var front, last := order[..|order| - 1], order[|order| - 1];
      FilledIs(table, networks, front);
      assert order == front + [last];
      ElementsAppend(front, last);
    }
  }

  // The events of putting these names where `had` were.
  function Put(order: seq<string>, had: set<string>): seq<Event> {
    if order == [] then []
    else
      var name := order[|order| - 1];
      Put(order[..|order| - 1], had) + [Event(if name in had then Modified else Added, name)]
  }

  lemma {:induction false} PutReplays(order: seq<string>, had: set<string>)
    requires Distinct(order)
    ensures Replay(Put(order, had), had) == Some(had + Elements(order))
  {
    if order == [] {
      assert had + Elements(order) == had;
    } else {
      var front, last := order[..|order| - 1], order[|order| - 1];
      assert order == front + [last];
      ElementsAppend(front, last);
      PutReplays(front, had);
      assert last !in Elements(front);
      Next(Put(front, had), Event(if last in had then Modified else Added, last), had, had + Elements(front));
      assert had + Elements(front) + {last} == had + Elements(order);
    }
  }

  // Exactly one event tells of every name there was or is: the names gone are removed, those
  // kept modified and the new ones added.
  ghost predicate Switches(made: seq<Event>, had: set<string>, has: set<string>) {
    && (forall e: Event :: e in made <==> Fits(e, had, has))
    && |made| == |had + has|
  }

  predicate Fits(e: Event, had: set<string>, has: set<string>) {
    match e.change
    case Added => e.name in has - had
    case Modified => e.name in has * had
    case Removed => e.name in had - has
  }

  lemma {:induction false} PutIs(order: seq<string>, had: set<string>)
    ensures |Put(order, had)| == |order|
    ensures forall e: Event :: e in Put(order, had) <==>
      e.name in order && e.change == if e.name in had then Modified else Added
  {
    if order != [] {
      var front, last := order[..|order| - 1], order[|order| - 1];
      PutIs(front, had);
      assert order == front + [last];
    }
  }

  lemma SwitchReplays(first: seq<string>, second: seq<string>, had: set<string>, has: set<string>)
    requires Takes(first, had - has, {}) && Takes(second, has, {})
    ensures Replay(Each(first, Removed) + Put(second, had * has), had) == Some(has)
  {
    assert Elements(first) == had - has && Elements(second) == has;
    ReplayRemoved(first, had);
    assert had - Elements(first) == had * has;
    PutReplays(second, had * has);
    assert had * has + has == has;
    ReplayAppend(Each(first, Removed), Put(second, had * has), had);
  }

  lemma SwitchIs(first: seq<string>, second: seq<string>, had: set<string>, has: set<string>)
    requires Takes(first, had - has, {}) && Takes(second, has, {})
    ensures Switches(Each(first, Removed) + Put(second, had * has), had, has)
  {
    var a, b := Each(first, Removed), Put(second, had * has);
    EachIs(first, Removed);
    PutIs(second, had * has);
    DistinctSize(first);
    DistinctSize(second);
    assert Elements(first) == had - has && Elements(second) == has;
    assert |had + has| == |had - has| + |has| by {
      assert had + has == (had - has) + has && (had - has) !! has;
    }
    forall e: Event
      ensures e in a + b <==> Fits(e, had, has)
    {
      FitsOne(first, second, had, has, e);
    }
  }

  lemma FitsOne(first: seq<string>, second: seq<string>, had: set<string>, has: set<string>, e: Event)
    requires Elements(first) == had - has && Elements(second) == has
    ensures (e in Each(first, Removed) || e in Put(second, had * has)) <==> Fits(e, had, has)
  {
    EachIs(first, Removed);
    PutIs(second, had * has);
    assert e.name in first <==> e.name in Elements(first);
    assert e.name in second <==> e.name in Elements(second);
  }

  function Only(networks: map<string, Network>, names: set<string>): map<string, Network> {
    map n | n in networks && n in names :: networks[n]
  }

  lemma {:induction false} BroadcastAppend(listeners: seq<nat>, a: seq<Event>, b: seq<Event>)
    ensures BroadcastAll(listeners, a + b) == BroadcastAll(listeners, a) + BroadcastAll(listeners, b)
  {
    if b == [] {
      assert a + b == a;
    } else {
      var front, last := b[..|b| - 1], b[|b| - 1];
      assert a + b == (a + front) + [last];
      BroadcastSnoc(listeners, a + front, last);
      BroadcastAppend(listeners, a, front);
      Regroup(BroadcastAll(listeners, a), BroadcastAll(listeners, front), Broadcast(listeners, last));
    }
  }

  function Changed(e: Event, present: set<string>): set<string> {
    if e.change == Removed then present - {e.name} else present + {e.name}
  }

  predicate MakesSense(e: Event, present: set<string>) {
    (e.name in present) != (e.change == Added)
  }

  lemma Next(events: seq<Event>, e: Event, before: set<string>, present: set<string>)
    requires Replay(events, before) == Some(present)
    ensures Replay(events + [e], before) == if MakesSense(e, present) then Some(Changed(e, present)) else None
  {
    ReplayAppend(events, [e], before);
    assert [e][1..] == [];
    if MakesSense(e, present) {
      ReplayOne(e.change, e.name, present);
      assert e.change == Modified ==> present + {e.name} == present;
    }
  }

  lemma OneMore(events: seq<Event>, e: Event, orderly: bool, present: set<string>)
    requires Replay(events, {}) == if orderly then Some(present) else None
    ensures Replay(events + [e], {}) == if orderly && MakesSense(e, present) then Some(Changed(e, present)) else None
  {
    if orderly {
      Next(events, e, {}, present);
    } else {
      ReplayAppend(events, [e], {});
    }
  }
}
