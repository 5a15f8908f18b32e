// The lifetime of a request: an invocation context, its shallow copies, the one executor they
// share, and the hand-off of event work (session_invocation_context.py).  What is to be run on
// the executor is waited for, unless the caller is on the executor's own loop: then it only
// becomes a task of that loop.
module InvocationContext {
  import opened PyDicts

  // What a context does to its collaborators, in order.
  datatype Effect =
    | RequestClosed                   // close_of_request() was run
    | QueueClosed
    | ResourceRequestDone(resource: nat)
    | WorkClosed                      // close_of_work() was run
    | ResourceWorkDone(resource: nat)
    | ReservationistDone
    | QueuedForLater                  // put on the event work queue
    | ExecutorReturned(executor: nat)

  // bornFinished marks a copy of a context whose request was already finished.
  datatype Context = Context(
    cloned: bool,
    isEvent: bool,
    hasWorkQueue: bool,
    hasReservationist: bool,
    finished: bool,
    bornFinished: bool,
    queueOpen: bool,
    executor: Option<nat>,
    resources: seq<nat>)

  // A coroutine left to the executor's loop.
  datatype Task = CloseRequest | CloseWork | QueueUp

  // crashed: something was to be run on an executor that is no longer there.
  datatype Outcome = Outcome(context: Context, effects: seq<Effect>, tasks: seq<Task>, crashed: bool)

  function EachRequestDone(resources: seq<nat>): seq<Effect> {
    if resources == [] then []
    else EachRequestDone(resources[..|resources| - 1]) + [ResourceRequestDone(resources[|resources| - 1])]
  }

  function EachWorkDone(resources: seq<nat>): seq<Effect> {
    if resources == [] then []
    else EachWorkDone(resources[..|resources| - 1]) + [ResourceWorkDone(resources[|resources| - 1])]
  }

  function RequestEffects(c: Context): seq<Effect> {
    [RequestClosed] + (if c.queueOpen then [QueueClosed] else []) + EachRequestDone(c.resources)
  }

  function WorkEffects(c: Context): seq<Effect> {
    [WorkClosed] + EachWorkDone(c.resources) +
    if !c.cloned && c.hasReservationist then [ReservationistDone] else []
  }

  // What a task does when its turn comes.
  function TaskEffects(c: Context, t: Task): seq<Effect> {
    match t
    case CloseRequest => RequestEffects(c)
    case CloseWork => WorkEffects(c)
    case QueueUp => [QueuedForLater]
  }

  function TaskRun(c: Context, t: Task): Context {
    if t == CloseRequest then c.(queueOpen := false) else c
  }

  // A coroutine run on the executor, or left to its loop.
  function Ran(c: Context, t: Task, sameLoop: bool): Outcome {
    if sameLoop then Outcome(c, [], [t], false) else Outcome(TaskRun(c, t), TaskEffects(c, t), [], false)
  }

  function Then(a: Outcome, b: Outcome): Outcome {
    Outcome(b.context, a.effects + b.effects, a.tasks + b.tasks, a.crashed || b.crashed)
  }

  function Returned(c: Context): Outcome {
    if c.cloned || c.executor.None? then Outcome(c, [], [], false)
    else Outcome(c.(executor := None), [ExecutorReturned(c.executor.value)], [], false)
  }

  function WorkDone(c: Context, sameLoop: bool): Outcome {
    if c.executor.None? then Outcome(c, [], [], true)
    else
      var ran := Ran(c, CloseWork, sameLoop);
      Then(ran, Returned(ran.context))
  }

  predicate HandsOff(c: Context) {
    c.isEvent && c.hasWorkQueue
  }

  // What follows the closing of the request.
  function Rest(c: Context, sameLoop: bool): Outcome {
    if HandsOff(c) then Ran(c, QueueUp, sameLoop) else WorkDone(c, sameLoop)
  }

  function Finished(c: Context, sameLoop: bool): Outcome {
    if c.finished then Outcome(c, [], [], false)
    else if c.executor.None? then Outcome(c.(finished := true), [], [], true)
    else
      var ran := Ran(c.(finished := true), CloseRequest, sameLoop);
      Then(ran, Rest(ran.context, sameLoop))
  }

  // A shallow copy has its own queue and no resources yet; the rest it shares or inherits, the
  // mark of a finished request included.
  function Copied(c: Context, invocation: Option<bool>): Context {
    c.(cloned := true, bornFinished := c.finished, queueOpen := true, resources := [],
       isEvent := if invocation.Some? then invocation.value else c.isEvent)
  }

  /* ---------- the program ---------- */

  // The collaborators, as the record of what was done to them, and the tasks left to the loop.
  class Collaborators {
    var effects: seq<Effect>
    var tasks: seq<Task>

    constructor ()
      ensures effects == [] && tasks == []
    {
      effects, tasks := [], [];
    }
  }

  class SessionInvocationContext {
    var cloned: bool
    var isEvent: bool
    var hasWorkQueue: bool
    var hasReservationist: bool
    var requestFinished: bool
    ghost var bornFinished: bool
    var queueOpen: bool
    var asyncioExecutor: Option<nat>
    var resources: seq<nat>
    const others: Collaborators

    ghost function State(): Context
      reads this
    {
      Context(cloned, isEvent, hasWorkQueue, hasReservationist, requestFinished, bornFinished, queueOpen,
              asyncioExecutor, resources)
    }

    constructor (isEvent: bool, hasWorkQueue: bool, hasReservationist: bool, executor: nat)
      ensures State() == Context(false, isEvent, hasWorkQueue, hasReservationist, false, false, true, Some(executor), [])
      ensures fresh(others) && others.effects == [] && others.tasks == []
    {
      cloned, requestFinished, bornFinished, queueOpen := false, false, false, true;
      this.isEvent, this.hasWorkQueue, this.hasReservationist := isEvent, hasWorkQueue, hasReservationist;
      asyncioExecutor, resources := Some(executor), [];
      others := new Collaborators();
    }

    constructor SafeShallowCopy(original: SessionInvocationContext, invocation: Option<bool>)
      ensures State() == Copied(original.State(), invocation)
      ensures cloned && queueOpen && resources == []
      ensures isEvent == if invocation.Some? then invocation.value else original.isEvent
      ensures hasWorkQueue == original.hasWorkQueue && hasReservationist == original.hasReservationist
      ensures requestFinished == original.requestFinished && asyncioExecutor == original.asyncioExecutor
      ensures fresh(others) && others.effects == [] && others.tasks == []
    {
      cloned, bornFinished, queueOpen := true, original.requestFinished, true;
      hasWorkQueue, hasReservationist := original.hasWorkQueue, original.hasReservationist;
      requestFinished, asyncioExecutor := original.requestFinished, original.asyncioExecutor;
      isEvent, resources := original.isEvent, [];
      if invocation.Some? {
        isEvent := invocation.value;
      }
      others := new Collaborators();
    }

    method AddResource(resource: nat)
      modifies this`resources
      ensures resources == old(resources) + [resource]
    {
      resources := resources + [resource];
    }

    method CloseOfRequest()
      modifies this`queueOpen, others`effects
      ensures !queueOpen
      ensures others.effects == old(others.effects) + RequestEffects(old(State()))
    {
      ghost var start := others.effects + [RequestClosed] + if queueOpen then [QueueClosed] else [];
      others.effects := others.effects + [RequestClosed];
      if queueOpen {
        others.effects := others.effects + [QueueClosed];
        queueOpen := false;
      }
      for i := 0 to |resources|
        invariant others.effects == start + EachRequestDone(resources[..i]) && !queueOpen
      {
        others.effects := others.effects + [ResourceRequestDone(resources[i])];
        assert resources[..i + 1][..i] == resources[..i];
      }
      assert resources[..|resources|] == resources;
    }

    method CloseOfWork()
      modifies others`effects
      ensures others.effects == old(others.effects) + WorkEffects(State())
    {
      ghost var start := others.effects + [WorkClosed];
      others.effects := others.effects + [WorkClosed];
      for i := 0 to |resources|
        invariant others.effects == start + EachWorkDone(resources[..i])
      {
        others.effects := others.effects + [ResourceWorkDone(resources[i])];
        assert resources[..i + 1][..i] == resources[..i];
      }
      assert resources[..|resources|] == resources;
      if !cloned && hasReservationist {
        others.effects := others.effects + [ReservationistDone];
      }
    }

    // The loop gets to a task.
    method RunTask(task: Task)
      modifies this`queueOpen, others`effects
      ensures State() == TaskRun(old(State()), task)
      ensures others.effects == old(others.effects) + TaskEffects(old(State()), task)
    {
      match task {
        case CloseRequest => CloseOfRequest();
        case CloseWork => CloseOfWork();
        case QueueUp => others.effects := others.effects + [QueuedForLater];
      }
    }

    // _run_in_executor_until_complete, for each of the three coroutines.
    method RunInExecutor(task: Task, sameLoop: bool)
      modifies this`queueOpen, others`effects, others`tasks
      ensures State() == Ran(old(State()), task, sameLoop).context
      ensures others.effects == old(others.effects) + Ran(old(State()), task, sameLoop).effects
      ensures others.tasks == old(others.tasks) + Ran(old(State()), task, sameLoop).tasks
    {
      assert others.effects + [] == others.effects;
      if sameLoop {
        others.tasks := others.tasks + [task];
      } else {
        RunTask(task);
      }
    }

    method DoneWithWork(sameLoop: bool) returns (crashed: bool)
      modifies this`queueOpen, this`asyncioExecutor, others`effects, others`tasks
      ensures State() == WorkDone(old(State()), sameLoop).context
      ensures others.effects == old(others.effects) + WorkDone(old(State()), sameLoop).effects
      ensures others.tasks == old(others.tasks) + WorkDone(old(State()), sameLoop).tasks
      ensures crashed == WorkDone(old(State()), sameLoop).crashed
    {
      if asyncioExecutor.None? {
        return true;
      }
      RunInExecutor(CloseWork, sameLoop);
      ghost var ran := Ran(old(State()), CloseWork, sameLoop);
      Regroup(old(others.effects), ran.effects, Returned(ran.context).effects);
      Regroup(old(others.tasks), ran.tasks, []);
      if cloned {
        return false;
      }
      others.effects := others.effects + [ExecutorReturned(asyncioExecutor.value)];
      asyncioExecutor := None;
      return false;
    }

    method FinishRequest(sameLoop: bool) returns (crashed: bool)
      modifies this`requestFinished, this`queueOpen, this`asyncioExecutor, others`effects, others`tasks
      ensures State() == Finished(old(State()), sameLoop).context
      ensures others.effects == old(others.effects) + Finished(old(State()), sameLoop).effects
      ensures others.tasks == old(others.tasks) + Finished(old(State()), sameLoop).tasks
      ensures crashed == Finished(old(State()), sameLoop).crashed
    {
      if requestFinished {
        return false;
      }
      requestFinished := true;
      if asyncioExecutor.None? {
        return true;
      }
      ghost var ran := Ran(State(), CloseRequest, sameLoop);
      RunInExecutor(CloseRequest, sameLoop);
      ghost var rest := Rest(State(), sameLoop);
      if isEvent && hasWorkQueue {
        RunInExecutor(QueueUp, sameLoop);
        crashed := false;
      } else {
        crashed := DoneWithWork(sameLoop);
      }
      Regroup(old(others.effects), ran.effects, rest.effects);
      Regroup(old(others.tasks), ran.tasks, rest.tasks);
    }
  }
}
