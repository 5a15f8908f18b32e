# nora-fleet: verified models of the service core

This project models the stateful protocols and tree and graph algorithms at the core of
nora-fleet and proves properties of them in Dafny. To check it, run
`dafny verify dfyconfig.toml` in this directory.

Code that changes state is modelled as classes and loops with the source's own fields; each
method is proved equal to a specification function on values, and the properties are lemmas
about every run of those functions. Where threads or coroutines interleave, the protocol is a
state machine whose steps are the locked blocks and the single unlocked reads of the code.

| files | subject |
|---|---|
| `PyDicts` | insertion-ordered dictionaries, first-occurrence de-duplication |
| `TempStorage`, `ExpiringStorage`, `TempStorageRuns`, `StorageBounds`, `StorageAnswers`, `Listeners`, `StorageThreads`, `StorageSolo`, `StorageFreshness`, `StorageLosses`, `StorageRaces` | the expiring LRU cache of temporary networks: specification, class, sequential runs, bounds and eviction order, what each operation answers and leaves with and without a base, listener events, any number of threads and that one alone does what the operation does, when the cache is up to date and keeps an entry under them, and what interleaving costs |
| `NetworkStorage` | the storage of permanent networks and its listeners |
| `Connectivity`, `ConnectivityReporter`, `BreadthFirst` | the recursive connectivity report over a tool graph; when its order is the documented one |
| `InvocationContext`, `RequestRuns`, `RequestResources`, `RequestAftermath` | a request, its tree of copies and the one executor they share; who is told of its end; what is still run once it is returned |
| `CollatingQueue`, `ChatSession` | the queue that ends a stream once; one final answer per exchange |
| `CommonDefs`, `DottedPaths`, `DefaultsFilter`, `DefaultsLaws`, `DefaultsReach` | configuration rewriting |
| `LineFraming` | the accumulator loop of the HTTP clients |
| `ChatHistory`, `ChatHistoryProcessor` | brace escaping and the chat-history normaliser |
| `OriginatingJournal` | the journal with one pending message |
| `ToolSelection`, `ToolSelectionRuns` | enforcement of the tool selection |
| `LazyConstruction` | double-checked construction |
| `Origination` | numbering and naming the incarnations of a tool |

Properties that do not hold of the code are stated as lemmas with the runs or inputs on which
they fail, next to the exact condition under which they do hold where there is one:

- Without a base storage a lookup answers as the unbounded map would, except exactly for names
  whose entry was evicted since they were last added (`StorageAnswers.WithoutBase`).
- Under threads the cache is up to date exactly when no addition overtakes a thread that is about
  to cache another entry of the same name (`StorageFreshness.StaysLatestExactly`); a run that does
  is `StorageRaces.StaleRun`.
- An unexpired entry can be lost to a thread that found an earlier one of its name expired; without
  a limit it stays cached exactly when no thread is about to do that
  (`StorageLosses.StaysHeldExactly`, `AddedAgainAndLost`).
- An eviction does not look at the limit again under the lock: with the limit lifted meanwhile it
  removes everything or nothing, depending on the threshold (`StorageRaces.LiftedLimitExactly`).
- A connectivity report fails exactly when a hidden node is reachable, because
  `determine_display_as` is given None (connectivity_reporter.py:150 and 221); the class
  documentation describes such a node as reported with no tools
  (`ConnectivityReporting.ConnectivityReporter.ReportNetworkConnectivity`).
- The documentation says breadth-first (connectivity_reporter.py:35 and 171); the code is
  depth-first. The two orders are the same wherever only the last present tool of a name has
  present tools of its own, and where every name is listed once, exactly there
  (`BreadthFirst.ReportIsBreadthFirst`, `DepthFirstNotBreadthFirst`); where names are listed more
  than once they can also agree otherwise (`BreadthFirst.BreadthFirstThoughNotSlim`).
- An epoch of the queue has one end exactly when none was still to be enqueued as it was reset
  (`CollatingQueue.OneEndExactly`, `ResetOvertakesEnd`).
- Two substitution passes are a fixed point exactly when references nest at most two deep, and
  filtering twice is filtering once exactly when what is left recurs after two
  (`CommonDefs.FilterIsFixedExactly`, `FilterTwiceExactly`); injecting the defaults twice differs
  from once exactly for a front man given a schema whose required fields are missing, repeated or
  impossible to unite (`DefaultsLaws.FilteringTwice`).
- A normalised history is a fixed point unless curtailment drops the redacted instructions and
  exposes another system message, and exactly then it is not
  (`ChatHistoryProcessing.FixedPointExactly`, `FixedPointFails`).
- A call allowed with no record can use up the record of a later answer with the same id
  (`ToolSelectionRuns.RecordLostToEarlierCall`); the exact verdict on every call is
  `ToolSelectionRuns.AdvertisedEqualsExecutable`.
- `get_service` returns None exactly when nothing was assigned between the last reset and its last
  read (`LazyConstruction.EveryInterleavingSafe`, `NothingReturned`).
- The original context returns the executor without waiting for its copies, and on the executor's
  own loop without waiting for its own closing; when nothing is left to run on it is
  `RequestAftermath.QuietExactly`.
- Names tell origins apart exactly when no tool is named like a later incarnation of another
  (`Origination.NamesTellExactly`, `DashConfuses`); a listener can follow the events exactly when
  it is registered exactly once (`NetworkStorage.HearsTrulyExactly`).

## Model

| member | source | states |
|---|---|---|
| `TempStorage.StepKeeps` | nora_fleet/internals/network_providers/expiring_agent_network_storage.py:71-322 | every operation of the reservation API keeps the key sets of agents, reservations, access times and sizes equal |
| `TempStorage.RemoveAllTables` | nora_fleet/internals/network_providers/expiring_agent_network_storage.py:227-253 | removing a list of names takes exactly those out of all four tables and touches no other entry |
| `ExpiringStorage.ExpiringAgentNetworkStorage.constructor` | nora_fleet/internals/network_providers/expiring_agent_network_storage.py:38-69 | four empty tables, no limit, the given base storage |
| `ExpiringStorage.ExpiringAgentNetworkStorage.SetMaxAgentNetworks` | nora_fleet/internals/network_providers/expiring_agent_network_storage.py:71-86 | the new limit, its threshold (a twentieth rounded half to even, at least one) and the eviction that follows |
| `ExpiringStorage.ExpiringAgentNetworkStorage.AddReservations` | nora_fleet/internals/network_providers/expiring_agent_network_storage.py:122-175 | write-through to the base, all tables filled under one time stamp, added and replaced names announced, then eviction |
| `ExpiringStorage.ExpiringAgentNetworkStorage.InsertEach` | nora_fleet/internals/network_providers/expiring_agent_network_storage.py:143-153 | the locked block: each item inserted in order and classed as new or replaced against the table as it then is |
| `ExpiringStorage.ExpiringAgentNetworkStorage.FindExpired` | nora_fleet/internals/network_providers/expiring_agent_network_storage.py:189-225 | the names past their time in a snapshot, in table order |
| `ExpiringStorage.ExpiringAgentNetworkStorage.ExpireReservations` | nora_fleet/internals/network_providers/expiring_agent_network_storage.py:189-216 | exactly the expired names leave every table and are announced as removed |
| `ExpiringStorage.ExpiringAgentNetworkStorage.RemoveAgentNetwork` | nora_fleet/internals/network_providers/expiring_agent_network_storage.py:227-235 | one name leaves all four tables |
| `ExpiringStorage.ExpiringAgentNetworkStorage.EvictLruAgentNetworks` | nora_fleet/internals/network_providers/expiring_agent_network_storage.py:237-259 | nothing up to the threshold, otherwise the oldest names by stable sort until the limit is met, each announced |
| `ExpiringStorage.ExpiringAgentNetworkStorage.GetAgentNetworkProvider` | nora_fleet/internals/network_providers/expiring_agent_network_storage.py:261-322 | answer, tables and events of a lookup: cached, expired, fetched from the base, or absent |
| `TempStorageRuns.StepAgrees` | nora_fleet/internals/network_providers/expiring_agent_network_storage.py:122-322 | each operation keeps cache and base in agreement with the unbounded map and answers as the map does |
| `TempStorageRuns.Transparent` | nora_fleet/internals/network_providers/expiring_agent_network_storage.py:122-322 | cache transparency: in every run, for any limit, each lookup is answered as by the unbounded map that hides expired entries, at one of the two moments the lookup checks the clock |
| `TempStorageRuns.TransparentFromStart` | nora_fleet/internals/network_providers/expiring_agent_network_storage.py:38-69 | the same for every run of a new storage over an empty base |
| `TempStorageRuns.EvictionInvisible` | nora_fleet/internals/network_providers/expiring_agent_network_storage.py:237-259 | two storages over the same map with any limits and any cached contents give the same answers, when no lookup straddles an expiry |
| `StorageBounds.SortSorted` | nora_fleet/internals/network_providers/expiring_agent_network_storage.py:247-250 | the order of eviction is sorted by access time and a permutation of the table's keys |
| `StorageBounds.SortStable` | nora_fleet/internals/network_providers/expiring_agent_network_storage.py:247-250 | names with equal access times keep their insertion order |
| `StorageBounds.EvictionIsLru` | nora_fleet/internals/network_providers/expiring_agent_network_storage.py:237-253 | an eviction leaves exactly the limit, or everything below the threshold; no survivor is older than a victim |
| `StorageBounds.StepSound` | nora_fleet/internals/network_providers/expiring_agent_network_storage.py:71-322 | each operation keeps the key sets equal, the size within limit and slack, and the access times in the past |
| `StorageBounds.RunSound` | nora_fleet/internals/network_providers/expiring_agent_network_storage.py:71-322 | in every timed run the size between operations is at most the limit plus max(1, a twentieth rounded half to even) |
| `StorageBounds.SoundFromStart` | nora_fleet/internals/network_providers/expiring_agent_network_storage.py:38-69 | the same for every run of a new storage, with or without a base |
| `StorageBounds.FetchedSurvives` | nora_fleet/internals/network_providers/expiring_agent_network_storage.py:304-319 | a network just handed out is still cached, even among equal time stamps |
| `StorageAnswers.CachedLookup` | nora_fleet/internals/network_providers/expiring_agent_network_storage.py:266-292 | with or without a base, a cached name is answered if and only if its time has not passed at the first look at the clock, by its network, and is then stamped; past it the entry leaves all tables and that is announced |
| `StorageAnswers.UncachedLookup` | nora_fleet/internals/network_providers/expiring_agent_network_storage.py:294-322 | any other name is answered if and only if the base has an entry for it that has not expired at either look; otherwise nothing changes |
| `StorageAnswers.WithoutBase` | nora_fleet/internals/network_providers/expiring_agent_network_storage.py:122-322 | without a base, in every timed run and for every limit, each lookup answers as the unbounded map does at its first look at the clock, but for names whose entry was evicted since they were last added, which get no answer |
| `StorageAnswers.WithoutBaseFromStart` | nora_fleet/internals/network_providers/expiring_agent_network_storage.py:38-69 | from a new storage without a base every lookup answers as the map or not at all, and where no limit is ever set, as the map |
| `StorageAnswers.ExpireExactly` | nora_fleet/internals/network_providers/expiring_agent_network_storage.py:189-216 | after an expiry a name is cached if and only if it was and its time had not passed when it was read; what is cached is untouched, and exactly the others are announced, each once |
| `StorageAnswers.LeastRecentlyUsed` | nora_fleet/internals/network_providers/expiring_agent_network_storage.py:237-259 | in every run, with or without a base, whatever an operation evicts was last added or found no later than anything that stays |
| `StorageAnswers.ThresholdIs` | nora_fleet/internals/network_providers/expiring_agent_network_storage.py:80-84 | the slack is the whole number nearest to a twentieth of the limit, the even one of two, and at least one; none without a limit |
| `StorageAnswers.Stores` | nora_fleet/internals/network_providers/expiring_agent_network_storage.py:143-153 | the last item of an id in a batch is what the four tables and the base hold under it: its network, its reservation, the stamp and the size |
| `StorageAnswers.AnnouncedInOrder` | nora_fleet/internals/network_providers/expiring_agent_network_storage.py:146-164 | names are announced in batch order, as added where they were not cached before and else as modified |
| `StorageAnswers.RunSized` | nora_fleet/internals/network_providers/expiring_agent_network_storage.py:143-153 | in every run each name is cached with the size of its network |
| `Listeners.AddReplays` | nora_fleet/internals/network_providers/expiring_agent_network_storage.py:143-175 | the events of an addition and its eviction replay from the old key set to the new one |
| `Listeners.LookupReplays` | nora_fleet/internals/network_providers/expiring_agent_network_storage.py:261-322 | so do the events of a lookup |
| `Listeners.ExpiredInOrder` | nora_fleet/internals/network_providers/expiring_agent_network_storage.py:197-201 | expired names are taken in the order of the table |
| `Listeners.RunReplays` | nora_fleet/internals/network_providers/expiring_agent_network_storage.py:146-319 | over every sequential run, replaying the events gives exactly the key set, with no addition of a present name and no change or removal of an absent one |
| `Listeners.RebuildsExactly` | nora_fleet/internals/network_providers/expiring_agent_network_storage.py:155-175 | whatever reaches a listener rebuilds the key set if and only if the announcements about each name do so for that name |
| `Listeners.CrossedReplays` | nora_fleet/internals/network_providers/expiring_agent_network_storage.py:155-175 | announcements made outside the lock may cross, as long as those about one name keep their order |
| `StorageThreads.StartSafe` | nora_fleet/internals/network_providers/expiring_agent_network_storage.py:122-142 | starting any method, the write-through included, keeps the interleaving invariant |
| `StorageThreads.NextSafe` | nora_fleet/internals/network_providers/expiring_agent_network_storage.py:143-319 | so does every locked block and every unlocked read of any thread |
| `StorageThreads.EveryScheduleSafe` | nora_fleet/internals/network_providers/expiring_agent_network_storage.py:122-322 | for any number of threads and any schedule, with or without a base: agents, reservations and sizes have the same keys, access times have those and at most late touches, and every network handed out was published under that name |
| `StorageSolo.AloneRefines` | nora_fleet/internals/network_providers/expiring_agent_network_storage.py:71-322 | from any state of the other threads, a thread that runs any method to its end while they stand still leaves the tables, the base and the answer that the sequential operation does |
| `StorageFreshness.InOrderFromStart` | nora_fleet/internals/network_providers/expiring_agent_network_storage.py:122-322 | on every schedule in which no addition overtakes a thread about to cache another entry of one of its names, every cached pair is the one last added under its name, unless that name is just being added |
| `StorageFreshness.OvertakenCaches` | nora_fleet/internals/network_providers/expiring_agent_network_storage.py:143-153 | from any state, an addition that overtakes a thread leads, on some schedule, to a state that caches the older entry while no thread is adding the name |
| `StorageFreshness.StaysLatestExactly` | nora_fleet/internals/network_providers/expiring_agent_network_storage.py:122-319 | from an up-to-date state an addition keeps the cache up to date on every schedule without further additions, if and only if it overtakes no thread |
| `StorageLosses.ThreatLoses` | nora_fleet/internals/network_providers/expiring_agent_network_storage.py:197-209 | a thread that is about to remove a name, or to check it by a reservation that ends sooner, goes on to remove it, whatever has been added since; without a base no lookup then finds it |
| `StorageLosses.StaysHeldExactly` | nora_fleet/internals/network_providers/expiring_agent_network_storage.py:189-235 | without a limit an entry stays cached, on every schedule that adds nothing under its name and does not reach its time, if and only if there is no such thread |
| `StorageLosses.AddedAgainAndLost` | nora_fleet/internals/network_providers/expiring_agent_network_storage.py:197-209 | a schedule that leads there: found expired, added again, and about to be removed |
| `StorageRaces.StaleRun` | nora_fleet/internals/network_providers/expiring_agent_network_storage.py:294-319 | a schedule after which all threads are idle and the cache serves a network that the base has replaced |
| `StorageRaces.LockedEviction` | nora_fleet/internals/network_providers/expiring_agent_network_storage.py:241-253 | what the locked block of an eviction leaves under any interleaving: everything up to the threshold; beyond it at least the limit, and at most the limit and one for every access time that outlived its entry |
| `StorageRaces.LiftedLimitExactly` | nora_fleet/internals/network_providers/expiring_agent_network_storage.py:241-253 | with no limit left and no late touches, the eviction removes every network if the threshold is exceeded, and none otherwise |
| `StorageRaces.LiftedLimitRun` | nora_fleet/internals/network_providers/expiring_agent_network_storage.py:77-86 | a schedule of two threads that reaches it: with no limit left, the one network just added is gone |
| `NetworkStorage.AgentNetworkStorage.AddAgentNetwork` | nora_fleet/internals/network_providers/agent_network_storage.py:50-73 | the table gains or replaces one entry, every listener is told which, and the events still rebuild the key set |
| `NetworkStorage.AgentNetworkStorage.RemoveAgentNetwork` | nora_fleet/internals/network_providers/agent_network_storage.py:90-104 | the entry leaves the table; the removal is announced even of an absent name, which ends the correspondence |
| `NetworkStorage.AgentNetworkStorage.RemoveEach` | nora_fleet/internals/network_providers/agent_network_storage.py:80-85 | the first loop of setup, in any order |
| `NetworkStorage.AgentNetworkStorage.AddEach` | nora_fleet/internals/network_providers/agent_network_storage.py:86-88 | the second loop of setup, in any order |
| `NetworkStorage.AgentNetworkStorage.SetupAgentNetworks` | nora_fleet/internals/network_providers/agent_network_storage.py:75-88 | afterwards the table equals the given collection; exactly one event tells of every name that was or is there, and the events replay from the old keys to the new |
| `NetworkStorage.BroadcastIs` | nora_fleet/internals/network_providers/agent_network_storage.py:64-73 | each registration is told of a change, in the order they were made |
| `NetworkStorage.RegisteredOnceHearsAll` | nora_fleet/internals/network_providers/agent_network_storage.py:64-73 | a listener registered once can rebuild the key set from what it hears |
| `NetworkStorage.RegisteredTwiceIsConfused` | nora_fleet/internals/network_providers/agent_network_storage.py:37-41 | one registered more often cannot: the second copy of an addition makes no sense |
| `NetworkStorage.HearsTrulyExactly` | nora_fleet/internals/network_providers/agent_network_storage.py:37-73 | for all events and all starting names, what a listener hears replays as what is announced, if and only if it is registered exactly once |
| `Connectivity.NextIs` | nora_fleet/internals/chat/connectivity_reporter.py:152-178 | the depth-first rule names a next node exactly when some reported node has an unreported, present tool, and it is such a tool |
| `Connectivity.NextIsDepthFirst` | nora_fleet/internals/chat/connectivity_reporter.py:168-178 | it is the first unreported, present tool, in the order listed, of the latest name in the report that has one |
| `Connectivity.ToolsAre` | nora_fleet/internals/chat/connectivity_reporter.py:128-212 | the tools of a present internal name that allows it are the string entries of both its lists, each once, in the order first listed; any other name has none |
| `Connectivity.RuleReaches` | nora_fleet/internals/chat/connectivity_reporter.py:111-180 | every name in an order that follows the rule is reachable from the front man |
| `Connectivity.CompleteOrder` | nora_fleet/internals/chat/connectivity_reporter.py:82-180 | an order that follows the rule to its end holds exactly the reachable names, each once |
| `Connectivity.RuleIsDeterministic` | nora_fleet/internals/chat/connectivity_reporter.py:152-178 | there is only one such order |
| `ConnectivityReporting.ConnectivityReporter.AssembleToolList` | nora_fleet/internals/chat/connectivity_reporter.py:182-212 | the string tools of both lists, first occurrences in order |
| `ConnectivityReporting.ConnectivityReporter.ReportNodeConnectivity` | nora_fleet/internals/chat/connectivity_reporter.py:111-180 | the recursion over the shared set, on cyclic graphs too: what it reports continues the depth-first order and leaves none of it unreported |
| `ConnectivityReporting.ConnectivityReporter.ReportNetworkConnectivity` | nora_fleet/internals/chat/connectivity_reporter.py:82-109 | the front man first, every reachable name exactly once with its tools, hidden and external names as leaves and missing ones left out; it fails exactly when a hidden node is reachable and cannot be displayed |
| `BreadthFirst.SlimIsBreadthFirst` | nora_fleet/internals/chat/connectivity_reporter.py:35-36 | on every graph, cycles included, in which only the last present tool of a reachable name has present tools, the depth-first order is the breadth-first order |
| `BreadthFirst.BreadthFirstExactly` | nora_fleet/internals/chat/connectivity_reporter.py:35-36 | where every present name is listed by one reachable name and the front man by none, the depth-first order is breadth-first if and only if only last tools go further down |
| `BreadthFirst.ReportIsBreadthFirst` | nora_fleet/internals/chat/connectivity_reporter.py:152-178 | the same of the names of a complete report |
| `BreadthFirst.DepthFirstNotBreadthFirst` | nora_fleet/internals/chat/connectivity_reporter.py:173-178 | an instance: with tools a and b, and c below a, the report is in the order a, c, b, which is not breadth-first |
| `BreadthFirst.BreadthFirstThoughNotSlim` | nora_fleet/internals/chat/connectivity_reporter.py:173-178 | with c a tool of the front man too, the order is both, though a is not the last tool |
| `InvocationContext.SessionInvocationContext.SafeShallowCopy` | nora_fleet/session/session_invocation_context.py:282-333 | a copy shares the executor and the mark of a finished request, and has a queue and a list of resources of its own |
| `InvocationContext.SessionInvocationContext.CloseOfRequest` | nora_fleet/session/session_invocation_context.py:176-188 | the queue is closed once and each resource told, in order |
| `InvocationContext.SessionInvocationContext.CloseOfWork` | nora_fleet/session/session_invocation_context.py:190-209 | each resource is told, in order; only an original closes the reservationist |
| `RequestResources.RequestTells` | nora_fleet/session/session_invocation_context.py:182-188 | closing a request tells exactly the resources held, each once and in order, after the queue is closed if it was open, and does nothing else |
| `RequestResources.WorkTells` | nora_fleet/session/session_invocation_context.py:200-209 | closing the work tells exactly the resources held, each once and in order, then an original's reservationist, and does nothing else |
| `InvocationContext.SessionInvocationContext.RunInExecutor` | nora_fleet/session/session_invocation_context.py:368-395 | a coroutine is run to its end, or on the executor's own loop becomes a task of it |
| `InvocationContext.SessionInvocationContext.DoneWithWork` | nora_fleet/session/session_invocation_context.py:397-410 | the work is closed or left to the loop and, by an original, the executor returned and given up |
| `InvocationContext.SessionInvocationContext.FinishRequest` | nora_fleet/session/session_invocation_context.py:341-366 | once: the request is closed, then the work is closed or, for an event, queued for later, each at once or as a task of the loop |
| `RequestRuns.FinishedCount` | nora_fleet/session/session_invocation_context.py:341-366 | how often finishing takes each closing step or leaves it to the loop, for every state of a context and either loop |
| `RequestRuns.StepOk` | nora_fleet/session/session_invocation_context.py:282-410 | copying, adding a resource, finishing on either loop, the monitor's finishing and the loop's next task keep the accounts of every context |
| `RequestRuns.RunOk` | nora_fleet/session/session_invocation_context.py:282-410 | for any tree of copies and any order of repeated finishes on any loops: each context closes its request at most once and finishes its work or hands it off, never both; only the original returns the executor, at most once, and closes the reservationist; nothing is ever to be run on a missing executor; once the loop has caught up these are accounts of what was really done |
| `RequestResources.FinishedAtOnce` | nora_fleet/session/session_invocation_context.py:341-410 | what finishing does away from the executor's loop, in order: the request, then the hand-off or the work, and last the return of the executor by an original |
| `RequestResources.FinishedOnLoop` | nora_fleet/session/session_invocation_context.py:376-410 | what it leaves to that loop, in order, and does at once: only the return of the executor |
| `RequestResources.HeldFromThen` | nora_fleet/session/session_invocation_context.py:170-174 | in a run a resource that is added is held by its context from then on, and a copy starts with none |
| `RequestResources.FinishedTellsEveryone` | nora_fleet/session/session_invocation_context.py:170-209 | in any run over any tree of copies, once the loop has caught up: a finished context has told exactly the resources it held when its request was closed, each once and in order, and closed its queue once; once its work is done, the same of the work, the resources before the reservationist; any other context has told nobody, and only the request's own executor is ever returned |
| `RequestAftermath.QuietExactly` | nora_fleet/session/session_invocation_context.py:341-410 | no continuation has any effect if and only if every context is finished, nothing is pending and the loop has caught up; once the executor is returned, whoever still has something to finish is a copy that finishes it on that executor |
| `RequestAftermath.FinishedInTheWrongOrder` | nora_fleet/session/session_invocation_context.py:341-410 | a run that gets there: copy, then finish the original first |
| `RequestAftermath.FinishingReturns` | nora_fleet/session/session_invocation_context.py:376-410 | an original that finishes returns the executor, and its work is not closed by then if and only if it finishes on the executor's own loop |
| `CollatingQueue.AsyncCollatingQueue.Put` | nora_fleet/internals/chat/async_collating_queue.py:70-92 | an item is appended unless the end was sent and is to be checked |
| `CollatingQueue.AsyncCollatingQueue.PutFinalItem` | nora_fleet/internals/chat/async_collating_queue.py:94-109 | the end is appended the first time and never again |
| `CollatingQueue.AsyncCollatingQueue.Next` | nora_fleet/internals/chat/async_collating_queue.py:58-68 | the first item, or the end of the iteration when it is final |
| `CollatingQueue.PutsArrive` | nora_fleet/internals/chat/async_collating_queue.py:84-109 | whatever the others do in between, an item that passes the check is enqueued, and so is the end of the producer that sets the latch; with the latch set neither passes |
| `CollatingQueue.TakesNext` | nora_fleet/internals/chat/async_collating_queue.py:51-68 | a consumer under way takes the next of the log: yields it, or ends its iteration on a final item; a new one can then begin |
| `CollatingQueue.EveryIteration` | nora_fleet/internals/chat/async_collating_queue.py:51-68 | for every interleaving, resets or not, the k-th iteration yields exactly the k-th piece of what was enqueued between final items, what was left behind the previous end included, and the present one a prefix of the next piece |
| `CollatingQueue.FirstSegment` | nora_fleet/internals/chat/async_collating_queue.py:58-68 | the first of these pieces is what precedes the first end |
| `CollatingQueue.EveryEpoch` | nora_fleet/internals/chat/async_collating_queue.py:70-129 | in every run, with the check and the enqueue apart: in each epoch between resets the latch is set at most once and no end is enqueued but its own and those still owed; where none was owed there is at most one end, and behind it no more items than producers were past the check when the latch was set |
| `CollatingQueue.OneEndExactly` | nora_fleet/internals/chat/async_collating_queue.py:94-129 | an epoch whose ends are all enqueued has exactly one if and only if none was owed when it was opened |
| `CollatingQueue.EveryPatientEpoch` | nora_fleet/internals/chat/async_collating_queue.py:70-129 | the same bounds without condition where resets wait for the end to be enqueued |
| `CollatingQueue.ResetOvertakesEnd` | nora_fleet/internals/chat/async_collating_queue.py:104-129 | a run with two ends in one epoch |
| `ChatSession.MessageJournal.WriteMessage` | nora_fleet/internals/journals/message_journal.py:52-82 | what the filter lets through is processed and put on the queue, unless the end was sent |
| `ChatSession.DataDrivenChatSession.FinalizeRequest` | nora_fleet/internals/chat/data_driven_chat_session.py:334-361 | the first call writes its message and the end; later ones change nothing |
| `ChatSession.DataDrivenChatSession.RunIt` | nora_fleet/internals/chat/data_driven_chat_session.py:203-280 | on every returning path the queue gains what the agents wrote, one final message and the end, and then nothing; their contents are `EventSays`, `FailureSays` and `AnswerSays` |
| `ChatSession.NothingFinalBefore` | nora_fleet/internals/journals/message_journal.py:63-82 | nothing the journal writes ends the stream |
| `ChatSession.WrittenInOrder` | nora_fleet/internals/journals/message_journal.py:63-82 | of what is written, exactly the messages that are framework messages with a chat context, or all under the maximal filter, reach the queue, processed, in order |
| `ChatSession.EventSays` | nora_fleet/internals/chat/data_driven_chat_session.py:212-216 | an event is told "Event acknowledged", and nothing written meanwhile precedes it |
| `ChatSession.FailureSays` | nora_fleet/internals/chat/data_driven_chat_session.py:225-233 | a set-up that raises sends its error behind what it wrote |
| `ChatSession.AnswerSays` | nora_fleet/internals/chat/data_driven_chat_session.py:235-276 | otherwise the final message is the answer, or the empty text where there is none, behind what the set-up, where one was needed, and the chat wrote |
| `ChatSession.OneFinalAnswer` | nora_fleet/internals/chat/data_driven_chat_session.py:212-280 | under either filter a consumer yields what was let through and then exactly one final message, and the end is the last thing on the queue |
| `ChatSession.OnlyFirstFinalization` | nora_fleet/internals/chat/data_driven_chat_session.py:342-361 | for every sequence of journal writes and finalizations the queue gets what was written before the first finalization, that one message and the end |
| `ChatSession.NothingLater` | nora_fleet/internals/chat/data_driven_chat_session.py:342-361 | no sequence of calls after the end changes anything, so the queue can be closed |
| `CommonDefs.MakeReplacements` | nora_fleet/internals/graph/filters/dictionary_common_defs_config_filter.py:48-77 | a string that names an entry becomes that entry; everything else stays |
| `CommonDefs.FilterOneDict` | nora_fleet/internals/graph/filters/abstract_common_defs_config_filter.py:85-111 | the loop over a dictionary substitutes at every depth |
| `CommonDefs.FilterOneList` | nora_fleet/internals/graph/filters/abstract_common_defs_config_filter.py:113-137 | the loop over a list substitutes at every depth |
| `CommonDefs.FilterConfig` | nora_fleet/internals/graph/filters/abstract_common_defs_config_filter.py:41-83 | the tools are substituted twice with the starting table updated by the config's own definitions, which win; nothing else changes, and exactly the malformed configurations are refused |
| `CommonDefs.FilteredAt` | nora_fleet/internals/graph/filters/abstract_common_defs_config_filter.py:75-137 | anywhere in the tools a string that names an entry becomes it, an entry that is a string being looked up once more, and every other leaf stays |
| `CommonDefs.SelfSubstitutedIsTwice` | nora_fleet/internals/graph/filters/abstract_common_defs_config_filter.py:75-81 | substituting with the self-substituted table is substituting twice with the original, on every value and every table, cyclic ones included |
| `CommonDefs.RecursExactly` | nora_fleet/internals/graph/filters/abstract_common_defs_config_filter.py:75-81 | m more passes after n change nothing if and only if every string that still names an entry is m references from itself |
| `CommonDefs.FixedExactly` | nora_fleet/internals/graph/filters/abstract_common_defs_config_filter.py:75-81 | n passes reach a fixed point if and only if references nest at most n deep |
| `CommonDefs.FilterIsFixedExactly` | nora_fleet/internals/graph/filters/abstract_common_defs_config_filter.py:75-81 | another pass leaves the filtered tools alone if and only if references nest at most two deep |
| `CommonDefs.FilterTwiceExactly` | nora_fleet/internals/graph/filters/abstract_common_defs_config_filter.py:75-81 | filtering them again leaves them alone if and only if what then still names an entry is two references from itself |
| `CommonDefs.FilterKeepsShape` | nora_fleet/internals/graph/filters/abstract_common_defs_config_filter.py:85-137 | outside replaced strings, keys, list lengths and leaves are those of the source |
| `DottedPaths.SetToolValue` | nora_fleet/internals/graph/filters/defaults_config_filter.py:179-215 | the walk that creates missing dictionaries and stops at a value that is none |
| `DottedPaths.GetAfterSet` | nora_fleet/internals/graph/filters/defaults_config_filter.py:188-215 | what was set is read back, unless a non-dictionary blocks the path, and then nothing was set |
| `DottedPaths.GetApart` | nora_fleet/internals/graph/filters/defaults_config_filter.py:188-215 | paths apart from the one set read as before |
| `DottedPaths.SetKeepsLeaves` | nora_fleet/internals/graph/filters/defaults_config_filter.py:119-141 | setting a path where nothing was read changes no explicit value |
| `DottedPaths.AbsorbedIff` | nora_fleet/internals/graph/filters/defaults_config_filter.py:159-164 | merging changes nothing exactly when the tool already says everything the default does |
| `DottedPaths.OverlayKeepsLeaves` | nora_fleet/internals/graph/filters/defaults_config_filter.py:159-164 | in a merge the tool's values win at every depth |
| `DottedPaths.OverlayFillsGaps` | nora_fleet/internals/graph/filters/defaults_config_filter.py:159-164 | where the tool says nothing, the merge reads as the default |
| `DefaultsFilter.MergeDictionaries` | nora_fleet/internals/graph/filters/defaults_config_filter.py:146-177 | the merge is set, then each field to unite; a field that cannot be united raises |
| `DefaultsFilter.FilterTool` | nora_fleet/internals/graph/filters/defaults_config_filter.py:96-141 | the entries of the mapping are applied to one tool in order |
| `DefaultsFilter.FilterConfig` | nora_fleet/internals/graph/filters/defaults_config_filter.py:62-144 | every tool is filtered, the first as the front man, and nothing else changes |
| `DefaultsLaws.ExplicitValuesKept` | nora_fleet/internals/graph/filters/defaults_config_filter.py:96-177 | no explicit value of a tool changes at any depth, but for the front man's required list |
| `DefaultsLaws.OnlyFrontManGetsSchema` | nora_fleet/internals/graph/filters/defaults_config_filter.py:96-123 | the function of any other tool is left alone |
| `DefaultsLaws.FrontManSchema` | nora_fleet/internals/graph/filters/defaults_config_filter.py:146-177 | the front man's schema is the default or the merge, and its required list the duplicate-free stable union |
| `DefaultsReach.OwnKeyReached` | nora_fleet/internals/graph/filters/defaults_config_filter.py:31-49 | each of the seven defaults with a key of its own reaches every tool: whole where the tool has nothing, merged underneath where both are dictionaries, and otherwise not |
| `DefaultsReach.VerboseReached` | nora_fleet/internals/graph/filters/defaults_config_filter.py:35-38 | verbose is filled from llm_config.verbose before the top-level verbose, each by the same rule |
| `DefaultsReach.OthersUntouched` | nora_fleet/internals/graph/filters/defaults_config_filter.py:31-52 | no other key of a tool is touched but the function |
| `DefaultsReach.SchemaReached` | nora_fleet/internals/graph/filters/defaults_config_filter.py:47-51 | a default schema that is no dictionary reaches a front man without one, if its path is free, and otherwise changes nothing |
| `DefaultsReach.FailsExactly` | nora_fleet/internals/graph/filters/defaults_config_filter.py:96-177 | filtering a tool fails if and only if it is no dictionary, or it is the front man and two dictionary schemas have required fields that cannot be united |
| `DefaultsLaws.FilteringTwice` | nora_fleet/internals/graph/filters/defaults_config_filter.py:31-177 | filtering a tool twice is filtering it once, if and only if it is not a front man given a schema whose required list is missing, repeats itself or cannot be united |
| `DefaultsLaws.ConfigTwice` | nora_fleet/internals/graph/filters/defaults_config_filter.py:62-144 | the same for a whole configuration |
| `LineFraming.Find` | nora_fleet/session/async_http_service_agent_session.py:127-142 | the first index of the separator, or -1 |
| `LineFraming.AcceptChunk` | nora_fleet/session/async_http_service_agent_session.py:122-142 | after each chunk the accumulator is the newline-free tail of all bytes so far and the messages are those of the complete lines |
| `LineFraming.StreamingChat` | nora_fleet/session/async_http_service_agent_session.py:120-149 | for every cutting into chunks the messages are those of the lines of the concatenation, an unterminated last one included |
| `LineFraming.SplitIsExact` | nora_fleet/session/http_service_agent_session.py:96-125 | the lines and the tail are newline-free and put the bytes back together |
| `LineFraming.SplitIsUnique` | nora_fleet/session/http_service_agent_session.py:103-118 | and that is the only way to split them so |
| `LineFraming.MessagesComeBack` | nora_fleet/session/http_service_agent_session.py:96-125 | messages joined or terminated by newlines come back from any cutting into chunks |
| `LineFraming.BlankTailVanishes` | nora_fleet/session/async_http_service_agent_session.py:144-149 | a blank rest without a newline adds nothing |
| `LineFraming.BlankLinesVanish` | nora_fleet/session/http_service_agent_session.py:108-112 | a blank line anywhere changes nothing |
| `LineFraming.BadLineEndsStream` | nora_fleet/session/async_http_service_agent_session.py:129-149 | a line that cannot be decoded or parsed ends the stream behind the messages before it, terminated or not |
| `ChatHistory.EscapeIdempotent` | nora_fleet/internals/chat/chat_history_message_processor.py:107-136 | escaping twice is escaping once, on every string |
| `ChatHistory.EscapeIsByRuns` | nora_fleet/internals/chat/chat_history_message_processor.py:107-136 | the four replacements turn each maximal run of n equal braces into 2*ceil(n/2) and leave the rest |
| `ChatHistoryProcessing.ChatHistoryMessageProcessor.ProcessMessage` | nora_fleet/internals/chat/chat_history_message_processor.py:73-105 | what one message adds: nothing, the redacted instructions, or itself escaped |
| `ChatHistoryProcessing.ChatHistoryMessageProcessor.ProcessMessages` | nora_fleet/internals/chat/chat_history_message_processor.py:52-71 | the retained messages, curtailed to the first and the last few others in order; an empty history with a maximum raises |
| `ChatHistoryProcessing.RetainedByRuns` | nora_fleet/internals/chat/chat_history_message_processor.py:73-136 | what each message of a conversation adds to the retained ones: the first system message redacted, any other text with each run of braces made even, and nothing for other kinds or without a text |
| `ChatHistoryProcessing.FixedPointExactly` | nora_fleet/internals/chat/chat_history_message_processor.py:52-136 | a fresh processor gives its own output back, except exactly where there are more retained messages than the first and the last few, the first is no system message, one that is dropped is, and the first system message among the last few says something other than the redacted text |
| `ChatHistoryProcessing.FixedPointUsually` | nora_fleet/internals/chat/chat_history_message_processor.py:52-136 | always without a maximum, and with one whenever the first retained message is a system message |
| `ChatHistoryProcessing.FixedPointFails` | nora_fleet/internals/chat/chat_history_message_processor.py:59-71 | a family of four-message histories that are not fixed points |
| `OriginatingJournal.Journal.WriteMessage` | nora_fleet/internals/journals/originating_journal.py:48-99 | the wrapped stream, the pending message and the chat history are those of the declarative rule over all calls so far |
| `OriginatingJournal.Journal.WriteMessageIfNextNotDupe` | nora_fleet/internals/journals/originating_journal.py:107-117 | so are they after a deferred write, which flushes a message already waiting |
| `OriginatingJournal.OneMoreWrite` | nora_fleet/internals/journals/originating_journal.py:62-99 | a write comes last in the stream, right behind the message that waits if that says something else, both under the origin of the write |
| `OriginatingJournal.OneMoreDeferral` | nora_fleet/internals/journals/originating_journal.py:107-117 | a deferral only flushes the message that waits, under the journal's own origin, and then waits itself |
| `OriginatingJournal.ExactlyAsExpected` | nora_fleet/internals/journals/originating_journal.py:62-117 | for every sequence of calls a written message appears once, and a deferred one once if another call follows that does not write the same content, and never otherwise |
| `OriginatingJournal.HistoryExactly` | nora_fleet/internals/journals/originating_journal.py:62-117 | over every sequence of calls the chat history holds each relevant message that is written exactly as often as that happens, a tool result as a plain AI message, anything but a system message as it is; a deferred one only if another deferral flushes it; and it only grows at its end |
| `ToolSelection.AdvertisedNames` | nora_fleet/middleware/llm_config_tool_selector_middleware.py:280-293 | the names of the tools, from an object, the top of a dict or its function |
| `ToolSelection.LlmConfigToolSelectorMiddleware.StampAdvertisedTools` | nora_fleet/middleware/llm_config_tool_selector_middleware.py:271-302 | every id the response carries, and no other, is recorded with the advertised names |
| `ToolSelection.LlmConfigToolSelectorMiddleware.DenyUnadvertisedToolCall` | nora_fleet/middleware/llm_config_tool_selector_middleware.py:304-339 | the verdict for each policy, with or without a record; under "deny" only a recorded name passes |
| `ToolSelection.LlmConfigToolSelectorMiddleware.CleanUp` | nora_fleet/middleware/llm_config_tool_selector_middleware.py:260-269 | a call with an id gives up its record, one without keeps it |
| `ToolSelection.InitializeEnforcement` | nora_fleet/middleware/llm_config_tool_selector_middleware.py:172-197 | an unknown policy is refused before anything is changed; otherwise the namespace's dict is found or made, and no other namespace is touched |
| `ToolSelectionRuns.RecordIsLatestWord` | nora_fleet/middleware/llm_config_tool_selector_middleware.py:254-302 | in any interleaving an id has a record exactly when its latest stamping was not followed by its clean-up, and it is that stamping's |
| `ToolSelectionRuns.AdvertisedEqualsExecutable` | nora_fleet/middleware/llm_config_tool_selector_middleware.py:254-339 | a call is executed if and only if its name is in the list of the latest stamping of its id, or there is none and the policy is "allow" |
| `ToolSelectionRuns.OnlyAfterSuccess` | nora_fleet/middleware/llm_config_tool_selector_middleware.py:260-269 | with an id given out once, an unadvertised name passes only under "allow" and after an executed call used the record up |
| `ToolSelectionRuns.NoIdNoClearing` | nora_fleet/middleware/llm_config_tool_selector_middleware.py:262-269 | calls without an id share one record, the latest, which nothing clears |
| `ToolSelectionRuns.NamespacesApart` | nora_fleet/middleware/llm_config_tool_selector_middleware.py:186-197 | the record of a namespace is what its own events alone make of it |
| `ToolSelectionRuns.VerdictsApart` | nora_fleet/middleware/llm_config_tool_selector_middleware.py:186-197 | a call gets the verdict it would get if no other instance ran |
| `ToolSelectionRuns.RecordLostToEarlierCall` | nora_fleet/middleware/llm_config_tool_selector_middleware.py:254-269 | a history in which a call let through without a record clears a later one |
| `LazyConstruction.AsyncAgentServiceProvider.GetService` | nora_fleet/service/generic/async_agent_service_provider.py:61-76 | run alone: the present instance, or a new one that is kept |
| `LazyConstruction.AsyncAgentServiceProvider.ResetService` | nora_fleet/service/generic/async_agent_service_provider.py:78-84 | run alone: the instance is dropped |
| `LazyConstruction.ActSafe` | nora_fleet/service/generic/async_agent_service_provider.py:61-84 | every step of every thread keeps mutual exclusion and the count of constructions |
| `LazyConstruction.EveryInterleavingSafe` | nora_fleet/service/generic/async_agent_service_provider.py:61-84 | in every interleaving constructions are at most resets plus one; a call returns None exactly when nothing was assigned since the last reset, which then came after its check; and no dropped instance is returned |
| `LazyConstruction.OnePool` | nora_fleet/service/utils/server_context.py:91-116 | without a reset at most one pool is built and every caller gets that one |
| `LazyConstruction.PresentIsReturned` | nora_fleet/service/generic/async_agent_service_provider.py:66-76 | a call that finds an instance returns it at once, without the lock |
| `LazyConstruction.AbsentIsConstructed` | nora_fleet/service/generic/async_agent_service_provider.py:66-76 | one that finds none and meets no other constructs one, keeps it and returns it |
| `LazyConstruction.SecondCheckFinds` | nora_fleet/service/generic/async_agent_service_provider.py:66-76 | one that waited while another constructed it takes that one |
| `LazyConstruction.NothingReturned` | nora_fleet/service/generic/async_agent_service_provider.py:76-84 | with a reset a caller can return None |
| `Origination.Origination.AddSpecNameToOrigin` | nora_fleet/internals/journals/origination.py:39-72 | the origin gains the tool with one more than the number of its incarnations so far; nothing to name gives an empty origin |
| `Origination.Origination.Reset` | nora_fleet/internals/journals/origination.py:119-123 | the numbering starts again |
| `Origination.NoGapNoRepeat` | nora_fleet/internals/journals/origination.py:60-63 | between resets a tool's indices are exactly 1 to the number of its incarnations, each once |
| `Origination.NeverTwice` | nora_fleet/internals/journals/origination.py:60-72 | no pair of tool and index is issued twice |
| `Origination.GetFullNameFromOrigin` | nora_fleet/internals/journals/origination.py:75-117 | no origin, the fault of the first component without a tool or with a None index, or the joined name |
| `Origination.FirstFaultRaises` | nora_fleet/internals/journals/origination.py:93-103 | the first component without a tool or with None for an index decides the error: ValueError without a tool, TypeError otherwise |
| `Origination.DecimalRead` | nora_fleet/internals/journals/origination.py:100-103 | a decimal numeral of any length is read back |
| `Origination.OneRead` | nora_fleet/internals/journals/origination.py:88-109 | where no tools clash, one component's rendering tells its tool and its index |
| `Origination.NameSpelled` | nora_fleet/internals/journals/origination.py:88-109 | a first incarnation is named like its tool, a later one with its index behind a dash in two digits at least; a path is the name of what precedes its last component, a dot, and the name of that |
| `Origination.ExternalSpelled` | nora_fleet/internals/journals/origination.py:105-109 | an external agent is named after two underscores, with every slash replaced |
| `Origination.NameTellsOrigin` | nora_fleet/internals/journals/origination.py:88-117 | over tools that do not clash two origins have the same name if and only if they are the same path with the same indices |
| `Origination.NamesTellExactly` | nora_fleet/internals/journals/origination.py:88-117 | over any tool names free of dots and slashes, names tell all origins apart if and only if no tool is named like a later incarnation of another; so always without dashes |
| `Origination.IncarnationsNamedApart` | nora_fleet/internals/journals/origination.py:60-117 | incarnations of tools that do not clash, numbered since a reset, never share a name, wherever they are called from |
| `Origination.DashConfuses` | nora_fleet/internals/journals/origination.py:98-109 | a dash in a tool name defeats this |

## Left out

Assumptions about code that is not part of this model:

- The base reservations storage is a faithful map that returns nothing for an expired entry; it may drop expired entries at any time. The clock never goes back within a sequential run.
- `DictionaryOverlay` is a recursive merge in which the second argument wins; `DictionaryExtractor` reads a dotted path and gives nothing when a part is missing or not a dictionary. The janus queue is first in, first out.
- The URL test of external agents, UTF-8 decoding, stripping and JSON parsing are parameters. A name without a slash is taken not to be a URL of an agent.

Not modelled:

- HTTP, MCP and gRPC transport, command line, logging, metrics, tracing and environment variables: input and output only.
- LLM calls, LangChain superclasses and class resolution; the narrowing of tools by the selector is an arbitrary choice.
- `add_agent_network` and `setup_agent_networks` as inherited by the temporary storage: they write only the agents table.
- Removing a listener, and several listeners with state of their own: what is proved of one registration is proved of each.
- `SessionInvocationContext.reset`: a new exchange after a finished one; exceptions while event work is queued.
- Under threads, a lookup's second look at the reservation the base returned (line 299 of the storage) and the locked block that caches it (305-309) are one step under one clock reading.
- Which thread announces what when: the steps of threads carry no announcements; what any order of arrival does to a listener is `Listeners.RebuildsExactly`.
- The awaits inside closing a request or closing its work: a coroutine is one step once the executor's loop gets to it.
- Exceptions raised by handlers, listeners, resources and the base storage in the middle of an operation.
- `display_as`, metadata and titles in connectivity reports; whether a hidden node can be displayed is a parameter, so both the code and its documentation are covered.
- Lists of pairs as replacement tables, strings as lists of tools, and tools that are not dictionaries: Python accepts some of these by accident.
- Python's equality of 1, 1.0 and True when required fields are de-duplicated, and the joining of two required strings.
- The limit and its threshold are integers and the twentieth is exact, where the source multiplies by a float.
- `StringCommonDefsConfigFilter`, `NameCorrectionConfigFilter`, manifest filters, redaction of private data, reservation lifetimes: settled by reading one branch, or without the laws proved here.
- `AccumulatingAgentReservationist` and the deployment of reservations.
- LineFraming.StreamingChat: one method stands for both clients, whose loops are the same statement for statement; a chunk is a whole value and there is no waiting for it.
- TempStorageRuns.Transparent: the two readings of the clock in a lookup are kept apart, so the answer is the map's at one of them; what holds under threads is `StorageFreshness.StaysLatestExactly`, where clock readings are arbitrary.
