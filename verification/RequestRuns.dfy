// Whole runs of a request: any tree of shallow copies, finished in any order and any number of
// times, on the executor's own loop or on another, with event work finished later by the event
// work monitor.
module RequestRuns {
  import opened PyDicts
  import opened InvocationContext

  // Context 0 is the original; the others are copies, of it or of one another.
  datatype System = System(
    contexts: seq<Context>,
    pending: seq<nat>,             // how often each is on the event work queue or with its monitor
    tasks: seq<(nat, Task)>,       // what the executor's loop has yet to get to
    log: seq<(nat, Effect)>,       // every effect, with the context that had it
    crashed: bool)

  datatype Op =
    | Copy(parent: nat, invocation: Option<bool>)
    | Add(context: nat, resource: nat)
    | Finish(context: nat, sameLoop: bool)
    | MonitorFinishes(context: nat)  // from a thread of its own
    | RunTask

  function Begin(isEvent: bool, hasWorkQueue: bool, hasReservationist: bool, executor: nat): System {
    System([Context(false, isEvent, hasWorkQueue, hasReservationist, false, false, true, Some(executor), [])],
           [0], [], [], false)
  }

  function Tagged<T>(i: nat, all: seq<T>): seq<(nat, T)> {
    if all == [] then [] else Tagged(i, all[..|all| - 1]) + [(i, all[|all| - 1])]
  }

  // What is put on the event work queue is pending from then on.
  function Become(s: System, i: nat, o: Outcome): System
    requires i < |s.contexts| == |s.pending|
  {
    System(s.contexts[i := o.context],
           s.pending[i := s.pending[i] + Count(o.effects, HandsWorkOff)],
           s.tasks + Tagged(i, o.tasks),
           s.log + Tagged(i, o.effects), s.crashed || o.crashed)
  }

  predicate Present(s: System, i: nat) {
    i < |s.contexts| == |s.pending|
  }

  function Step(s: System, op: Op): System {
    match op
    case Copy(p, invocation) =>
      if Present(s, p) then
        s.(contexts := s.contexts + [Copied(s.contexts[p], invocation)], pending := s.pending + [0])
      else s
    case Add(i, r) =>
      if Present(s, i) then
        s.(contexts := s.contexts[i := s.contexts[i].(resources := s.contexts[i].resources + [r])])
      else s
    case Finish(i, sameLoop) =>
      if Present(s, i) then Become(s, i, Finished(s.contexts[i], sameLoop)) else s
    case MonitorFinishes(i) =>
      if Present(s, i) && s.pending[i] > 0 then
        Become(s.(pending := s.pending[i := s.pending[i] - 1]), i, WorkDone(s.contexts[i], false))
      else s
    case RunTask =>
      if s.tasks != [] && Present(s, s.tasks[0].0) then
        var (i, t) := s.tasks[0];
        var c := s.contexts[i];
        Become(s.(tasks := s.tasks[1..]), i, Outcome(TaskRun(c, t), TaskEffects(c, t), [], false))
      else s
  }

  function Run(s: System, ops: seq<Op>): System {
    if ops == [] then s else Step(Run(s, ops[..|ops| - 1]), ops[|ops| - 1])
  }

  /* ---------- counting effects ---------- */

  // The closing steps that are counted.
  datatype Kind = ClosesRequest | ClosesWork | HandsWorkOff | ClosesReservationist | ReturnsExecutor | Uncounted

  function KindOf(e: Effect): Kind {
    match e
    case RequestClosed => ClosesRequest
    case WorkClosed => ClosesWork
    case QueuedForLater => HandsWorkOff
    case ReservationistDone => ClosesReservationist
    case ExecutorReturned(_) => ReturnsExecutor
    case _ => Uncounted
  }

  function Bit(b: bool): nat {
    if b then 1 else 0
  }

  function Count(effects: seq<Effect>, k: Kind): nat {
    if effects == [] then 0 else Count(effects[..|effects| - 1], k) + Bit(KindOf(effects[|effects| - 1]) == k)
  }

  // How often context i took a step of kind k, in the log of the whole run.
  function CountIn(log: seq<(nat, Effect)>, i: nat, k: Kind): nat {
    if log == [] then 0
    else
      var (j, e) := log[|log| - 1];
      CountIn(log[..|log| - 1], i, k) + Bit(i == j && KindOf(e) == k)
  }

  // How often a task will, of a context that has the reservationist to close or has not.
  function TaskBit(t: Task, closesReservationist: bool, k: Kind): nat {
    match t
    case CloseRequest => Bit(k == ClosesRequest)
    case CloseWork => Bit(k == ClosesWork || (k == ClosesReservationist && closesReservationist))
    case QueueUp => Bit(k == HandsWorkOff)
  }

  function CountTasks(tasks: seq<Task>, closesReservationist: bool, k: Kind): nat {
    if tasks == [] then 0
    else
      CountTasks(tasks[..|tasks| - 1], closesReservationist, k) + TaskBit(tasks[|tasks| - 1], closesReservationist, k)
  }

  // How often the tasks of context i will.
  function Waiting(tasks: seq<(nat, Task)>, i: nat, closesReservationist: bool, k: Kind): nat {
    if tasks == [] then 0
    else
      var (j, t) := tasks[|tasks| - 1];
      Waiting(tasks[..|tasks| - 1], i, closesReservationist, k) +
      if i == j then TaskBit(t, closesReservationist, k) else 0
  }

  lemma {:induction false} CountAppend(a: seq<Effect>, b: seq<Effect>, k: Kind)
    ensures Count(a + b, k) == Count(a, k) + Count(b, k)
  {
    if b == [] {
      assert a + b == a;
    } else {
      assert (a + b)[..|a + b| - 1] == a + b[..|b| - 1];
      CountAppend(a, b[..|b| - 1], k);
    }
  }

  lemma {:induction false} CountTagged(log: seq<(nat, Effect)>, i: nat, effects: seq<Effect>, j: nat, k: Kind)
    ensures CountIn(log + Tagged(i, effects), j, k) == CountIn(log, j, k) + if i == j then Count(effects, k) else 0
  {
    if effects == [] {
      assert log + [] == log;
    } else {
      var front, last := effects[..|effects| - 1], effects[|effects| - 1];
      CountTagged(log, i, front, j, k);
      var all := log + Tagged(i, effects);
      assert all[..|all| - 1] == log + Tagged(i, front) && all[|all| - 1] == (i, last);
    }
  }

  lemma {:induction false} WaitingTagged(tasks: seq<(nat, Task)>, i: nat, more: seq<Task>, j: nat, closes: bool, k: Kind)
    ensures Waiting(tasks + Tagged(i, more), j, closes, k) ==
      Waiting(tasks, j, closes, k) + if i == j then CountTasks(more, closes, k) else 0
  {
    if more == [] {
      assert tasks + [] == tasks;
    } else {
      var front, last := more[..|more| - 1], more[|more| - 1];
      WaitingTagged(tasks, i, front, j, closes, k);
      var all := tasks + Tagged(i, more);
      assert all[..|all| - 1] == tasks + Tagged(i, front) && all[|all| - 1] == (i, last);
    }
  }

  lemma {:induction false} WaitingFirst(tasks: seq<(nat, Task)>, i: nat, closes: bool, k: Kind)
    requires tasks != []
    ensures Waiting(tasks, i, closes, k) ==
      Waiting(tasks[1..], i, closes, k) + if tasks[0].0 == i then TaskBit(tasks[0].1, closes, k) else 0
  {
    if |tasks| > 1 {
      WaitingFirst(tasks[..|tasks| - 1], i, closes, k);
      assert tasks[..|tasks| - 1][1..] == tasks[1..][..|tasks| - 2];
    }
  }

  lemma {:induction false} NoneWaiting(tasks: seq<(nat, Task)>, i: nat, closes: bool, k: Kind)
    requires forall t :: t in tasks ==> t.0 != i
    ensures Waiting(tasks, i, closes, k) == 0
  {
    if tasks != [] {
      NoneWaiting(tasks[..|tasks| - 1], i, closes, k);
      assert tasks[|tasks| - 1] in tasks;
    }
  }

  lemma {:induction false} ResourcesDoNotCount(resources: seq<nat>, k: Kind)
    requires k != Uncounted
    ensures Count(EachRequestDone(resources), k) == 0 == Count(EachWorkDone(resources), k)
  {
    if resources != [] {
      ResourcesDoNotCount(resources[..|resources| - 1], k);
    }
  }

  lemma CountOne(e: Effect, k: Kind)
    ensures Count([e], k) == Bit(KindOf(e) == k)
  {
    assert [e][..0] == [];
  }

  lemma RequestCount(c: Context, k: Kind)
    requires k != Uncounted
    ensures Count(RequestEffects(c), k) == Bit(k == ClosesRequest)
  {
    var queue := if c.queueOpen then [QueueClosed] else [];
    CountOne(RequestClosed, k);
    CountOne(QueueClosed, k);
    ResourcesDoNotCount(c.resources, k);
    CountAppend([RequestClosed], queue, k);
    CountAppend([RequestClosed] + queue, EachRequestDone(c.resources), k);
  }

  predicate ClosesIt(c: Context) {
    !c.cloned && c.hasReservationist
  }

  lemma WorkCount(c: Context, k: Kind)
    requires k != Uncounted
    ensures Count(WorkEffects(c), k) == TaskBit(CloseWork, ClosesIt(c), k)
  {
    var last := if ClosesIt(c) then [ReservationistDone] else [];
    CountOne(WorkClosed, k);
    assert Count(last, k) == Bit(k == ClosesReservationist && ClosesIt(c)) by {
      CountOne(ReservationistDone, k);
    }
    ResourcesDoNotCount(c.resources, k);
    CountAppend([WorkClosed], EachWorkDone(c.resources), k);
    CountAppend([WorkClosed] + EachWorkDone(c.resources), last, k);
    assert WorkEffects(c) == [WorkClosed] + EachWorkDone(c.resources) + last;
  }

  lemma TaskCount(c: Context, t: Task, k: Kind)
    requires k != Uncounted
    ensures Count(TaskEffects(c, t), k) == TaskBit(t, ClosesIt(c), k)
  {
    match t
    case CloseRequest => RequestCount(c, k);
    case CloseWork => WorkCount(c, k);
    case QueueUp => CountOne(QueuedForLater, k);
  }

  // What an outcome amounts to, done or left to the loop.
  function Amount(o: Outcome, closes: bool, k: Kind): nat {
    Count(o.effects, k) + CountTasks(o.tasks, closes, k)
  }

  lemma OneTask(t: Task, closes: bool, k: Kind)
    ensures CountTasks([t], closes, k) == TaskBit(t, closes, k)
  {
    assert [t][..0] == [];
  }

  lemma {:induction false} TasksAppend(a: seq<Task>, b: seq<Task>, closes: bool, k: Kind)
    ensures CountTasks(a + b, closes, k) == CountTasks(a, closes, k) + CountTasks(b, closes, k)
  {
    if b == [] {
      assert a + b == a;
    } else {
      assert (a + b)[..|a + b| - 1] == a + b[..|b| - 1];
      TasksAppend(a, b[..|b| - 1], closes, k);
    }
  }

  lemma AmountThen(a: Outcome, b: Outcome, closes: bool, k: Kind)
    ensures Amount(Then(a, b), closes, k) == Amount(a, closes, k) + Amount(b, closes, k)
  {
    CountAppend(a.effects, b.effects, k);
    TasksAppend(a.tasks, b.tasks, closes, k);
  }

  // Done or left to the loop, it amounts to the same.
  lemma AmountRan(c: Context, t: Task, sameLoop: bool, k: Kind)
    requires k != Uncounted
    ensures Amount(Ran(c, t, sameLoop), ClosesIt(c), k) == TaskBit(t, ClosesIt(c), k)
  {
    if sameLoop {
      OneTask(t, ClosesIt(c), k);
    } else {
      TaskCount(c, t, k);
    }
  }

  lemma AmountReturned(c: Context, closes: bool, k: Kind)
    requires c.executor.Some?
    ensures Amount(Returned(c), closes, k) == Bit(!c.cloned && k == ReturnsExecutor)
  {
    CountOne(ExecutorReturned(c.executor.value), k);
  }

  function WorkDoneBit(c: Context, k: Kind): nat {
    TaskBit(CloseWork, ClosesIt(c), k) + Bit(!c.cloned && k == ReturnsExecutor)
  }

  lemma WorkDoneCount(c: Context, sameLoop: bool, k: Kind)
    requires c.executor.Some? && k != Uncounted
    ensures Amount(WorkDone(c, sameLoop), ClosesIt(c), k) == WorkDoneBit(c, k)
  {
    var ran := Ran(c, CloseWork, sameLoop);
    AmountRan(c, CloseWork, sameLoop, k);
    AmountReturned(ran.context, ClosesIt(c), k);
    AmountThen(ran, Returned(ran.context), ClosesIt(c), k);
  }

  function RestBit(c: Context, k: Kind): nat {
    if HandsOff(c) then Bit(k == HandsWorkOff) else WorkDoneBit(c, k)
  }

  lemma RestCount(c: Context, sameLoop: bool, k: Kind)
    requires c.executor.Some? && k != Uncounted
    ensures Amount(Rest(c, sameLoop), ClosesIt(c), k) == RestBit(c, k)
  {
    if HandsOff(c) {
      AmountRan(c, QueueUp, sameLoop, k);
    } else {
      WorkDoneCount(c, sameLoop, k);
    }
  }

  // Contexts that differ in nothing that counts.
  predicate CountAlike(a: Context, b: Context) {
    && a.executor == b.executor && a.cloned == b.cloned && a.hasReservationist == b.hasReservationist
    && a.isEvent == b.isEvent && a.hasWorkQueue == b.hasWorkQueue
  }

  lemma AlikeBits(a: Context, b: Context, k: Kind)
    requires CountAlike(a, b)
    ensures RestBit(a, k) == RestBit(b, k) && ClosesIt(a) == ClosesIt(b)
  {
  }

  // The context once the closing of the request is done or left to the loop.
  function Closed(c: Context, sameLoop: bool): Context {
    Ran(c.(finished := true), CloseRequest, sameLoop).context
  }

  lemma FinishedAmount(c: Context, sameLoop: bool, k: Kind)
    requires c.executor.Some? && k != Uncounted && !c.finished
    ensures CountAlike(Closed(c, sameLoop), c)
    ensures Amount(Finished(c, sameLoop), ClosesIt(c), k) ==
      Bit(k == ClosesRequest) + Amount(Rest(Closed(c, sameLoop), sameLoop), ClosesIt(c), k)
  {
    var c1 := c.(finished := true);
    var ran := Ran(c1, CloseRequest, sameLoop);
    AmountRan(c1, CloseRequest, sameLoop, k);
    AmountThen(ran, Rest(ran.context, sameLoop), ClosesIt(c), k);
  }

  lemma ClosedCount(c: Context, c1: Context, sameLoop: bool, k: Kind)
    requires c.executor.Some? && k != Uncounted && CountAlike(c1, c)
    ensures Amount(Rest(c1, sameLoop), ClosesIt(c), k) == RestBit(c, k)
  {
    AlikeBits(c1, c, k);
    RestCount(c1, sameLoop, k);
  }

  function FinishedBit(c: Context, k: Kind): nat {
    Bit(k == ClosesRequest) + RestBit(c, k)
  }

  lemma FinishedCount(c: Context, sameLoop: bool, k: Kind)
    requires c.executor.Some? && k != Uncounted && !c.finished
    ensures Amount(Finished(c, sameLoop), ClosesIt(c), k) == FinishedBit(c, k)
  {
    FinishedAmount(c, sameLoop, k);
    ClosedCount(c, Closed(c, sameLoop), sameLoop, k);
  }

  /* ---------- what every run keeps ---------- */

  // How often context i took a step or left it to the loop.
  function Total(c: Context, i: nat, log: seq<(nat, Effect)>, tasks: seq<(nat, Task)>, k: Kind): nat {
    CountIn(log, i, k) + Waiting(tasks, i, ClosesIt(c), k)
  }

  // What context i has done or left to the loop so far; `pending` is how often it awaits the
  // monitor, `lease` the one executor of the request.
  ghost predicate ContextOk(c: Context, i: nat, pending: nat, log: seq<(nat, Effect)>, tasks: seq<(nat, Task)>, lease: nat) {
    AccountsOk(c, i, pending + Waiting(tasks, i, ClosesIt(c), HandsWorkOff), lease,
               Total(c, i, log, tasks, ClosesRequest), Total(c, i, log, tasks, ClosesWork),
               Total(c, i, log, tasks, HandsWorkOff), Total(c, i, log, tasks, ClosesReservationist),
               Total(c, i, log, tasks, ReturnsExecutor))
  }

  ghost predicate AccountsOk(c: Context, i: nat, pending: nat, lease: nat,
                             closed: nat, worked: nat, handedOff: nat, reservationist: nat, returned: nat)
  {
    && c.cloned == (i > 0)
    && RequestOk(c, closed)
    && WorkOk(c, pending, closed, worked, handedOff)
    && SharedOk(c, i, worked, reservationist, returned)
    && ExecutorOk(c, i, pending, worked, lease)
  }

  // The request is closed once, by the first finish_request(), if any; a copy of a finished
  // context never closes its own.
  ghost predicate RequestOk(c: Context, closed: nat) {
    closed == Bit(c.finished && !c.bornFinished) && (c.bornFinished ==> c.finished && c.cloned)
  }

  // Its work is then done at once or handed off to be done once later, never both.
  ghost predicate WorkOk(c: Context, pending: nat, closed: nat, worked: nat, handedOff: nat) {
    && worked + pending == closed
    && handedOff == (if c.isEvent && c.hasWorkQueue then closed else 0)
    && (!(c.isEvent && c.hasWorkQueue) ==> pending == 0)
  }

  // Only the original closes the reservationist and returns the executor, when its work is done.
  ghost predicate SharedOk(c: Context, i: nat, worked: nat, reservationist: nat, returned: nat) {
    && reservationist == (if i == 0 && c.hasReservationist then worked else 0)
    && returned == (if i == 0 then worked else 0)
  }

  // Whoever has something left to run still holds the executor.
  ghost predicate ExecutorOk(c: Context, i: nat, pending: nat, worked: nat, lease: nat) {
    && (!c.finished || pending > 0 ==> c.executor == Some(lease))
    && (i == 0 ==> c.executor == if worked == 0 then Some(lease) else None)
  }

  ghost predicate AllPresent(tasks: seq<(nat, Task)>, n: nat) {
    forall t :: t in tasks ==> t.0 < n
  }

  ghost predicate Ok(s: System, lease: nat) {
    && |s.contexts| == |s.pending| > 0 && !s.crashed
    && AllPresent(s.tasks, |s.contexts|)
    && (forall i :: 0 <= i < |s.contexts| ==> ContextOk(s.contexts[i], i, s.pending[i], s.log, s.tasks, lease))
    && (forall i: nat, k :: i >= |s.contexts| ==> CountIn(s.log, i, k) == 0)
  }

  // An outcome that amounts to this much of every kind adds so much to the totals.
  lemma TotalsAfter(c: Context, i: nat, log: seq<(nat, Effect)>, tasks: seq<(nat, Task)>, o: Outcome, k: Kind)
    requires ClosesIt(o.context) == ClosesIt(c)
    ensures Total(o.context, i, log + Tagged(i, o.effects), tasks + Tagged(i, o.tasks), k) ==
      Total(c, i, log, tasks, k) + Amount(o, ClosesIt(c), k)
    ensures Count(o.effects, k) + Waiting(tasks + Tagged(i, o.tasks), i, ClosesIt(c), k) ==
      Waiting(tasks, i, ClosesIt(c), k) + Amount(o, ClosesIt(c), k)
  {
    CountTagged(log, i, o.effects, i, k);
    WaitingTagged(tasks, i, o.tasks, i, ClosesIt(c), k);
  }

  lemma FinishingOk(c: Context, sameLoop: bool, i: nat, pending: nat, log: seq<(nat, Effect)>, tasks: seq<(nat, Task)>, lease: nat)
    requires ContextOk(c, i, pending, log, tasks, lease) && !c.finished
    ensures var o := Finished(c, sameLoop);
      && !o.crashed
      && ContextOk(o.context, i, pending + Count(o.effects, HandsWorkOff), log + Tagged(i, o.effects),
                   tasks + Tagged(i, o.tasks), lease)
  {
    var o := Finished(c, sameLoop);
    FinishingAccounts(c, sameLoop, i, pending + Waiting(tasks, i, ClosesIt(c), HandsWorkOff), lease,
                      Total(c, i, log, tasks, ClosesRequest), Total(c, i, log, tasks, ClosesWork),
                      Total(c, i, log, tasks, HandsWorkOff), Total(c, i, log, tasks, ClosesReservationist),
                      Total(c, i, log, tasks, ReturnsExecutor));
    FinishingTotals(c, sameLoop, i, log, tasks);
  }

  lemma FinishingTotals(c: Context, sameLoop: bool, i: nat, log: seq<(nat, Effect)>, tasks: seq<(nat, Task)>)
    requires c.executor.Some? && !c.finished
    ensures var o := Finished(c, sameLoop);
      && (forall k :: k != Uncounted ==>
            Total(o.context, i, log + Tagged(i, o.effects), tasks + Tagged(i, o.tasks), k) ==
            Total(c, i, log, tasks, k) + FinishedBit(c, k))
      && Count(o.effects, HandsWorkOff) + Waiting(tasks + Tagged(i, o.tasks), i, ClosesIt(c), HandsWorkOff) ==
         Waiting(tasks, i, ClosesIt(c), HandsWorkOff) + FinishedBit(c, HandsWorkOff)
  {
    var o := Finished(c, sameLoop);
    forall k | k != Uncounted
      ensures Total(o.context, i, log + Tagged(i, o.effects), tasks + Tagged(i, o.tasks), k) ==
        Total(c, i, log, tasks, k) + FinishedBit(c, k)
    {
      TotalsAfter(c, i, log, tasks, o, k);
      FinishedCount(c, sameLoop, k);
    }
    TotalsAfter(c, i, log, tasks, o, HandsWorkOff);
    FinishedCount(c, sameLoop, HandsWorkOff);
  }

  lemma FinishingAccounts(c: Context, sameLoop: bool, i: nat, pending: nat, lease: nat,
                          closed: nat, worked: nat, handedOff: nat, reservationist: nat, returned: nat)
    requires !c.finished && AccountsOk(c, i, pending, lease, closed, worked, handedOff, reservationist, returned)
    ensures !Finished(c, sameLoop).crashed && ClosesIt(Finished(c, sameLoop).context) == ClosesIt(c)
    ensures AccountsOk(Finished(c, sameLoop).context, i, pending + FinishedBit(c, HandsWorkOff), lease,
                       closed + FinishedBit(c, ClosesRequest), worked + FinishedBit(c, ClosesWork),
                       handedOff + FinishedBit(c, HandsWorkOff), reservationist + FinishedBit(c, ClosesReservationist),
                       returned + FinishedBit(c, ReturnsExecutor))
  {
  }

  lemma MonitorOk(c: Context, i: nat, pending: nat, log: seq<(nat, Effect)>, tasks: seq<(nat, Task)>, lease: nat)
    requires ContextOk(c, i, pending, log, tasks, lease) && pending > 0
    ensures var o := WorkDone(c, false);
      && !o.crashed && Count(o.effects, HandsWorkOff) == 0
      && ContextOk(o.context, i, pending - 1, log + Tagged(i, o.effects), tasks + Tagged(i, o.tasks), lease)
  {
    var o := WorkDone(c, false);
    forall k | k != Uncounted
      ensures Total(o.context, i, log + Tagged(i, o.effects), tasks + Tagged(i, o.tasks), k) ==
        Total(c, i, log, tasks, k) + WorkDoneBit(c, k)
    {
      TotalsAfter(c, i, log, tasks, o, k);
      WorkDoneCount(c, false, k);
    }
    TotalsAfter(c, i, log, tasks, o, HandsWorkOff);
    WorkDoneCount(c, false, HandsWorkOff);
  }

  // A task whose turn comes moves from what is left to what is done.
  lemma TaskOk(c: Context, i: nat, pending: nat, log: seq<(nat, Effect)>, tasks: seq<(nat, Task)>, lease: nat)
    requires tasks != [] && tasks[0].0 == i && ContextOk(c, i, pending, log, tasks, lease)
    ensures var t := tasks[0].1;
      ContextOk(TaskRun(c, t), i, pending + Count(TaskEffects(c, t), HandsWorkOff),
                log + Tagged(i, TaskEffects(c, t)), tasks[1..], lease)
  {
    TaskTotals(c, i, log, tasks);
    assert ClosesIt(TaskRun(c, tasks[0].1)) == ClosesIt(c);
  }

  lemma TaskTotals(c: Context, i: nat, log: seq<(nat, Effect)>, tasks: seq<(nat, Task)>)
    requires tasks != [] && tasks[0].0 == i
    ensures var t := tasks[0].1;
      && (forall k :: k != Uncounted ==>
            Total(TaskRun(c, t), i, log + Tagged(i, TaskEffects(c, t)), tasks[1..], k) == Total(c, i, log, tasks, k))
      && Count(TaskEffects(c, t), HandsWorkOff) + Waiting(tasks[1..], i, ClosesIt(c), HandsWorkOff) ==
         Waiting(tasks, i, ClosesIt(c), HandsWorkOff)
  {
    var t := tasks[0].1;
    forall k | k != Uncounted
      ensures Total(TaskRun(c, t), i, log + Tagged(i, TaskEffects(c, t)), tasks[1..], k) == Total(c, i, log, tasks, k)
    {
      CountTagged(log, i, TaskEffects(c, t), i, k);
      WaitingFirst(tasks, i, ClosesIt(c), k);
      TaskCount(c, t, k);
    }
    WaitingFirst(tasks, i, ClosesIt(c), HandsWorkOff);
    TaskCount(c, t, HandsWorkOff);
  }

  lemma TaggedPresent(tasks: seq<(nat, Task)>, i: nat, more: seq<Task>, n: nat)
    requires AllPresent(tasks, n) && i < n
    ensures AllPresent(tasks + Tagged(i, more), n)
  {
    TagsAre(i, more);
  }

  lemma {:induction false} TagsAre(i: nat, more: seq<Task>)
    ensures forall t :: t in Tagged(i, more) ==> t.0 == i
  {
    if more != [] {
      TagsAre(i, more[..|more| - 1]);
    }
  }

  // What context i does leaves every other context's counts alone.
  lemma OthersOk(c: Context, j: nat, i: nat, pending: nat, s: System, tasks: seq<(nat, Task)>, o: Outcome, lease: nat)
    requires i != j && ContextOk(c, j, pending, s.log, s.tasks, lease)
    requires forall k :: Waiting(tasks, j, ClosesIt(c), k) == Waiting(s.tasks, j, ClosesIt(c), k)
    ensures ContextOk(c, j, pending, s.log + Tagged(i, o.effects), tasks + Tagged(i, o.tasks), lease)
  {
    forall k
      ensures Total(c, j, s.log + Tagged(i, o.effects), tasks + Tagged(i, o.tasks), k) == Total(c, j, s.log, s.tasks, k)
      ensures Waiting(tasks + Tagged(i, o.tasks), j, ClosesIt(c), k) == Waiting(s.tasks, j, ClosesIt(c), k)
    {
      CountTagged(s.log, i, o.effects, j, k);
      WaitingTagged(tasks, i, o.tasks, j, ClosesIt(c), k);
    }
  }

  ghost predicate SameForOthers(s: System, tasks: seq<(nat, Task)>, i: nat) {
    forall j: nat, closes, k :: j != i ==> Waiting(tasks, j, closes, k) == Waiting(s.tasks, j, closes, k)
  }

  lemma BecomeOk(s: System, s': System, i: nat, o: Outcome, pending: nat, tasks: seq<(nat, Task)>, lease: nat)
    requires Ok(s, lease) && i < |s.contexts| && !o.crashed && AllPresent(tasks, |s.contexts|)
    requires SameForOthers(s, tasks, i)
    requires ContextOk(o.context, i, pending, s.log + Tagged(i, o.effects), tasks + Tagged(i, o.tasks), lease)
    requires s'.contexts == s.contexts[i := o.context] && s'.pending == s.pending[i := pending] && !s'.crashed
    requires s'.tasks == tasks + Tagged(i, o.tasks) && s'.log == s.log + Tagged(i, o.effects)
    ensures Ok(s', lease)
  {
    TaggedPresent(tasks, i, o.tasks, |s.contexts|);
    forall j | 0 <= j < |s.contexts| && j != i
      ensures ContextOk(s.contexts[j], j, s.pending[j], s.log + Tagged(i, o.effects), tasks + Tagged(i, o.tasks), lease)
    {
      OthersOk(s.contexts[j], j, i, s.pending[j], s, tasks, o, lease);
    }
    forall j: nat, k | j >= |s.contexts|
      ensures CountIn(s.log + Tagged(i, o.effects), j, k) == 0
    {
      CountTagged(s.log, i, o.effects, j, k);
    }
  }

  lemma CopyOk(s: System, p: nat, invocation: Option<bool>, lease: nat)
    requires Ok(s, lease) && p < |s.contexts|
    ensures Ok(Step(s, Copy(p, invocation)), lease)
  {
    var i, c := |s.contexts|, Copied(s.contexts[p], invocation);
    assert ContextOk(s.contexts[p], p, s.pending[p], s.log, s.tasks, lease);
    forall k
      ensures Waiting(s.tasks, i, ClosesIt(c), k) == 0
    {
      NoneWaiting(s.tasks, i, ClosesIt(c), k);
    }
    assert ContextOk(c, i, 0, s.log, s.tasks, lease);
  }

  lemma FinishStepOk(s: System, i: nat, sameLoop: bool, lease: nat)
    requires Ok(s, lease) && i < |s.contexts|
    ensures Ok(Step(s, Finish(i, sameLoop)), lease)
  {
    if s.contexts[i].finished {
      FinishedAgain(s, i, sameLoop);
    } else {
      FinishingOk(s.contexts[i], sameLoop, i, s.pending[i], s.log, s.tasks, lease);
      OutcomeOk(s, i, Finished(s.contexts[i], sameLoop), lease);
    }
  }

  lemma FinishedAgain(s: System, i: nat, sameLoop: bool)
    requires Present(s, i) && s.contexts[i].finished
    ensures Step(s, Finish(i, sameLoop)) == s || s.crashed
  {
    var s' := Step(s, Finish(i, sameLoop));
    assert s'.tasks == s.tasks + [] == s.tasks && s'.log == s.log + [] == s.log;
    assert s'.contexts == s.contexts && s'.pending == s.pending;
  }

  lemma OutcomeOk(s: System, i: nat, o: Outcome, lease: nat)
    requires Ok(s, lease) && i < |s.contexts| && !o.crashed
    requires ContextOk(o.context, i, s.pending[i] + Count(o.effects, HandsWorkOff), s.log + Tagged(i, o.effects),
                       s.tasks + Tagged(i, o.tasks), lease)
    ensures Ok(Become(s, i, o), lease)
  {
    BecomeOk(s, Become(s, i, o), i, o, s.pending[i] + Count(o.effects, HandsWorkOff), s.tasks, lease);
  }

  lemma MonitorStepOk(s: System, i: nat, lease: nat)
    requires Ok(s, lease) && i < |s.contexts| && s.pending[i] > 0
    ensures Ok(Step(s, MonitorFinishes(i)), lease)
  {
    var c := s.contexts[i];
    assert ContextOk(c, i, s.pending[i], s.log, s.tasks, lease);
    MonitorOk(c, i, s.pending[i], s.log, s.tasks, lease);
    MonitorOutcomeOk(s, i, WorkDone(c, false), lease);
  }

  lemma MonitorOutcomeOk(s: System, i: nat, o: Outcome, lease: nat)
    requires Ok(s, lease) && i < |s.contexts| && s.pending[i] > 0 && !o.crashed && Count(o.effects, HandsWorkOff) == 0
    requires ContextOk(o.context, i, s.pending[i] - 1, s.log + Tagged(i, o.effects), s.tasks + Tagged(i, o.tasks), lease)
    ensures Ok(Become(s.(pending := s.pending[i := s.pending[i] - 1]), i, o), lease)
  {
    var s' := Become(s.(pending := s.pending[i := s.pending[i] - 1]), i, o);
    assert s'.pending == s.pending[i := s.pending[i] - 1];
    BecomeOk(s, s', i, o, s.pending[i] - 1, s.tasks, lease);
  }

  lemma TaskStepOk(s: System, lease: nat)
    requires Ok(s, lease) && s.tasks != []
    ensures Ok(Step(s, RunTask), lease)
  {
    var (i, t) := s.tasks[0];
    assert s.tasks[0] in s.tasks;
    var c := s.contexts[i];
    TaskOk(c, i, s.pending[i], s.log, s.tasks, lease);
    TaskOutcomeOk(s, i, Outcome(TaskRun(c, t), TaskEffects(c, t), [], false), lease);
  }

  lemma TaskOutcomeOk(s: System, i: nat, o: Outcome, lease: nat)
    requires Ok(s, lease) && i < |s.contexts| && !o.crashed && o.tasks == []
    requires s.tasks != [] && s.tasks[0].0 == i
    requires ContextOk(o.context, i, s.pending[i] + Count(o.effects, HandsWorkOff), s.log + Tagged(i, o.effects),
                       s.tasks[1..], lease)
    ensures Ok(Become(s.(tasks := s.tasks[1..]), i, o), lease)
  {
    var rest := s.tasks[1..];
    RestSame(s, i);
    assert rest + Tagged(i, o.tasks) == rest;
    BecomeOk(s, Become(s.(tasks := rest), i, o), i, o, s.pending[i] + Count(o.effects, HandsWorkOff), rest, lease);
  }

  lemma RestSame(s: System, i: nat)
    requires s.tasks != [] && s.tasks[0].0 == i
    ensures SameForOthers(s, s.tasks[1..], i)
  {
    forall j: nat, closes, k | j != i
      ensures Waiting(s.tasks[1..], j, closes, k) == Waiting(s.tasks, j, closes, k)
    {
      WaitingFirst(s.tasks, j, closes, k);
    }
  }

  lemma AddStepOk(s: System, i: nat, r: nat, lease: nat)
    requires Ok(s, lease) && i < |s.contexts|
    ensures Ok(Step(s, Add(i, r)), lease)
  {
    var c := s.contexts[i].(resources := s.contexts[i].resources + [r]);
    assert ContextOk(s.contexts[i], i, s.pending[i], s.log, s.tasks, lease);
    assert ContextOk(c, i, s.pending[i], s.log, s.tasks, lease);
  }

  lemma StepOk(s: System, op: Op, lease: nat)
    requires Ok(s, lease)
    ensures Ok(Step(s, op), lease)
  {
    match op
    case Copy(p, invocation) => if Present(s, p) { CopyOk(s, p, invocation, lease); }
    case Add(i, r) => if Present(s, i) { AddStepOk(s, i, r, lease); }
    case Finish(i, sameLoop) => if Present(s, i) { FinishStepOk(s, i, sameLoop, lease); }
    case MonitorFinishes(i) => if Present(s, i) && s.pending[i] > 0 { MonitorStepOk(s, i, lease); }
    case RunTask => if s.tasks != [] { TaskStepOk(s, lease); }
  }

  // Any tree of copies, any order of repeated finish_request() calls on whatever loops, any pace
  // of the monitor and of the executor's loop.
  lemma {:induction false} RunOk(isEvent: bool, hasWorkQueue: bool, hasReservationist: bool, lease: nat, ops: seq<Op>)
    ensures Ok(Run(Begin(isEvent, hasWorkQueue, hasReservationist, lease), ops), lease)
    ensures CaughtUp(Run(Begin(isEvent, hasWorkQueue, hasReservationist, lease), ops), lease)
  {
    if ops == [] {
      OkCaughtUp(Begin(isEvent, hasWorkQueue, hasReservationist, lease), lease);
    } else {
      RunOk(isEvent, hasWorkQueue, hasReservationist, lease, ops[..|ops| - 1]);
      StepOk(Run(Begin(isEvent, hasWorkQueue, hasReservationist, lease), ops[..|ops| - 1]), ops[|ops| - 1], lease);
      OkCaughtUp(Run(Begin(isEvent, hasWorkQueue, hasReservationist, lease), ops), lease);
    }
  }

  // When the executor's loop has caught up, the accounts are those of the log alone.
  ghost predicate CaughtUp(s: System, lease: nat) {
    s.tasks == [] && |s.contexts| == |s.pending| ==>
      forall i :: 0 <= i < |s.contexts| ==> LogOk(s, i, lease)
  }

  ghost predicate LogOk(s: System, i: nat, lease: nat)
    requires i < |s.contexts| == |s.pending|
  {
    AccountsOk(s.contexts[i], i, s.pending[i], lease,
               CountIn(s.log, i, ClosesRequest), CountIn(s.log, i, ClosesWork), CountIn(s.log, i, HandsWorkOff),
               CountIn(s.log, i, ClosesReservationist), CountIn(s.log, i, ReturnsExecutor))
  }

  lemma OkCaughtUp(s: System, lease: nat)
    requires Ok(s, lease)
    ensures CaughtUp(s, lease)
  {
    if s.tasks == [] {
      forall i | 0 <= i < |s.contexts|
        ensures LogOk(s, i, lease)
      {
        assert ContextOk(s.contexts[i], i, s.pending[i], s.log, s.tasks, lease);
      }
    }
  }
}
