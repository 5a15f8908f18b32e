// Who is told of the end of a request and of its work: the resources a context holds as it is
// closed, each once and in order, its queue, and the reservationist after them.
module RequestResources {
  import opened PyDicts
  import opened InvocationContext
  import opened RequestRuns

  /* ---------- what is read off the effects ---------- */

  // The resources told that the request is over, in order.
  function ToldOfRequest(effects: seq<Effect>): seq<nat> {
    if effects == [] then []
    else
      var last := effects[|effects| - 1];
      ToldOfRequest(effects[..|effects| - 1]) + if last.ResourceRequestDone? then [last.resource] else []
  }

  // The resources told that the work is over, in order.
  function ToldOfWork(effects: seq<Effect>): seq<nat> {
    if effects == [] then []
    else
      var last := effects[|effects| - 1];
      ToldOfWork(effects[..|effects| - 1]) + if last.ResourceWorkDone? then [last.resource] else []
  }

  function QueueClosings(effects: seq<Effect>): nat {
    if effects == [] then 0
    else QueueClosings(effects[..|effects| - 1]) + Bit(effects[|effects| - 1].QueueClosed?)
  }

  // The resources are told of the end of the work before the reservationist is.
  ghost predicate ResourcesFirst(effects: seq<Effect>) {
    forall p, q :: 0 <= p < q < |effects| && effects[p].ReservationistDone? ==> !effects[q].ResourceWorkDone?
  }

  // What one context did in a run.
  function EffectsOf(log: seq<(nat, Effect)>, i: nat): seq<Effect> {
    if log == [] then []
    else EffectsOf(log[..|log| - 1], i) + if log[|log| - 1].0 == i then [log[|log| - 1].1] else []
  }

  lemma {:induction false} ToldAppend(a: seq<Effect>, b: seq<Effect>)
    ensures ToldOfRequest(a + b) == ToldOfRequest(a) + ToldOfRequest(b)
    ensures ToldOfWork(a + b) == ToldOfWork(a) + ToldOfWork(b)
    ensures QueueClosings(a + b) == QueueClosings(a) + QueueClosings(b)
  {
    if b == [] {
      assert a + b == a;
    } else {
      assert (a + b)[..|a + b| - 1] == a + b[..|b| - 1];
      ToldAppend(a, b[..|b| - 1]);
    }
  }

  lemma ToldOne(e: Effect)
    ensures ToldOfRequest([e]) == if e.ResourceRequestDone? then [e.resource] else []
    ensures ToldOfWork([e]) == if e.ResourceWorkDone? then [e.resource] else []
    ensures QueueClosings([e]) == Bit(e.QueueClosed?)
  {
    assert [e][..0] == [];
  }

  lemma {:induction false} ResourcesTold(resources: seq<nat>)
    ensures ToldOfRequest(EachRequestDone(resources)) == resources && ToldOfWork(EachRequestDone(resources)) == []
    ensures ToldOfWork(EachWorkDone(resources)) == resources && ToldOfRequest(EachWorkDone(resources)) == []
    ensures QueueClosings(EachRequestDone(resources)) == 0 == QueueClosings(EachWorkDone(resources))
    ensures |EachRequestDone(resources)| == |resources| == |EachWorkDone(resources)|
  {
    if resources != [] {
      ResourcesTold(resources[..|resources| - 1]);
      assert resources == resources[..|resources| - 1] + [resources[|resources| - 1]];
    }
  }

  /* ---------- one closing ---------- */

  lemma ThreeParts(a: seq<Effect>, b: seq<Effect>, c: seq<Effect>)
    ensures ToldOfRequest(a + b + c) == ToldOfRequest(a) + ToldOfRequest(b) + ToldOfRequest(c)
    ensures ToldOfWork(a + b + c) == ToldOfWork(a) + ToldOfWork(b) + ToldOfWork(c)
    ensures QueueClosings(a + b + c) == QueueClosings(a) + QueueClosings(b) + QueueClosings(c)
  {
    ToldAppend(a, b);
    ToldAppend(a + b, c);
  }

  lemma MiddleOnly<T>(s: seq<T>)
    ensures [] + [] + s == s && [] + s + [] == s
  {
  }

  // Closing a request tells each of the resources once, in order, closes the queue if it was
  // open, and does nothing else.
  lemma RequestTells(c: Context)
    ensures ToldOfRequest(RequestEffects(c)) == c.resources && ToldOfWork(RequestEffects(c)) == []
    ensures QueueClosings(RequestEffects(c)) == Bit(c.queueOpen)
    ensures |RequestEffects(c)| == 1 + Bit(c.queueOpen) + |c.resources|
    ensures RequestEffects(c)[0] == RequestClosed && (c.queueOpen ==> RequestEffects(c)[1] == QueueClosed)
  {
    ToldOne(RequestClosed);
    ToldOne(QueueClosed);
    ResourcesTold(c.resources);
    ThreeParts([RequestClosed], if c.queueOpen then [QueueClosed] else [], EachRequestDone(c.resources));
    MiddleOnly(c.resources);
  }

  function LastTold(c: Context): seq<Effect> {
    if !c.cloned && c.hasReservationist then [ReservationistDone] else []
  }

  lemma WorkParts(c: Context)
    ensures WorkEffects(c) == [WorkClosed] + EachWorkDone(c.resources) + LastTold(c)
    ensures ResourcesFirst(WorkEffects(c))
  {
    EachWorkIs(c.resources);
  }

  // Closing the work tells each of the resources once, in order, and then, for an original that
  // has one, the reservationist; and does nothing else.
  lemma WorkTells(c: Context)
    ensures ToldOfWork(WorkEffects(c)) == c.resources && ToldOfRequest(WorkEffects(c)) == []
    ensures QueueClosings(WorkEffects(c)) == 0
    ensures ResourcesFirst(WorkEffects(c))
    ensures |WorkEffects(c)| == 1 + |c.resources| + Bit(!c.cloned && c.hasReservationist)
  {
    WorkParts(c);
    ToldOne(WorkClosed);
    ToldOne(ReservationistDone);
    ResourcesTold(c.resources);
    ThreeParts([WorkClosed], EachWorkDone(c.resources), LastTold(c));
    MiddleOnly(c.resources);
  }

  lemma {:induction false} EachWorkIs(resources: seq<nat>)
    ensures forall i :: 0 <= i < |EachWorkDone(resources)| ==> EachWorkDone(resources)[i].ResourceWorkDone?
  {
    if resources != [] {
      EachWorkIs(resources[..|resources| - 1]);
    }
  }

  // Finished away from the executor's loop, a context does it all at once: its request, then
  // either the hand-off or its work, and at last an original returns the executor.
  lemma FinishedAtOnce(c: Context)
    requires c.executor.Some? && !c.finished
    ensures var o := Finished(c, false);
      && o.effects == RequestEffects(c) +
           (if c.isEvent && c.hasWorkQueue then [QueuedForLater]
            else WorkEffects(c) + (if c.cloned then [] else [ExecutorReturned(c.executor.value)]))
      && o.tasks == [] && !o.crashed
  {
    var c1 := Closed(c, false);
    assert RequestEffects(c.(finished := true)) == RequestEffects(c);
    assert WorkEffects(c1) == WorkEffects(c);
    assert WorkDone(c1, false).tasks == [];
  }

  // On that loop it leaves the same to it, in the same order, and returns the executor at once.
  lemma FinishedOnLoop(c: Context)
    requires c.executor.Some? && !c.finished
    ensures var o := Finished(c, true);
      && o.tasks == [CloseRequest] + (if c.isEvent && c.hasWorkQueue then [QueueUp] else [CloseWork])
      && o.effects == (if c.cloned || (c.isEvent && c.hasWorkQueue) then [] else [ExecutorReturned(c.executor.value)])
      && !o.crashed
  {
    var c1 := Closed(c, true);
    assert WorkDone(c1, true).tasks == [CloseWork] + [];
    assert [CloseWork] + [] == [CloseWork];
  }

  /* ---------- one step of a run ---------- */

  // Effects that close the request of c at most once and its work at most once, and tell
  // everyone who is to be told as they do, and only then.
  ghost predicate Tells(effects: seq<Effect>, c: Context) {
    && TellsOfRequest(effects, c) && TellsOfWork(effects, c)
    && ResourcesFirst(effects)
    && Count(effects, ClosesReservationist) <= Count(effects, ClosesWork)
    && forall e :: e in effects && e.ExecutorReturned? ==> !c.cloned && c.executor == Some(e.executor)
  }

  predicate TellsOfRequest(effects: seq<Effect>, c: Context) {
    var n := Count(effects, ClosesRequest);
    && n <= 1
    && ToldOfRequest(effects) == (if n == 1 then c.resources else [])
    && QueueClosings(effects) == (if n == 1 then Bit(c.queueOpen) else 0)
  }

  predicate TellsOfWork(effects: seq<Effect>, c: Context) {
    var n := Count(effects, ClosesWork);
    n <= 1 && ToldOfWork(effects) == (if n == 1 then c.resources else [])
  }

  lemma {:induction false} ResourceTold(effects: seq<Effect>, q: nat)
    requires q < |effects| && effects[q].ResourceWorkDone?
    ensures ToldOfWork(effects) != []
  {
    if q < |effects| - 1 {
      ResourceTold(effects[..|effects| - 1], q);
    }
  }

  lemma {:induction false} ReservationistCounted(effects: seq<Effect>, p: nat)
    requires p < |effects| && effects[p].ReservationistDone?
    ensures Count(effects, ClosesReservationist) > 0
  {
    if p < |effects| - 1 {
      ReservationistCounted(effects[..|effects| - 1], p);
    }
  }

  lemma ResourcesStayFirst(a: seq<Effect>, b: seq<Effect>)
    requires ResourcesFirst(a) && ResourcesFirst(b)
    requires Count(a, ClosesReservationist) > 0 ==> ToldOfWork(b) == []
    ensures ResourcesFirst(a + b)
  {
    forall p, q | 0 <= p < q < |a + b| && (a + b)[p].ReservationistDone?
      ensures !(a + b)[q].ResourceWorkDone?
    {
      if p < |a| <= q {
        ReservationistCounted(a, p);
        if b[q - |a|].ResourceWorkDone? {
          ResourceTold(b, q - |a|);
        }
      }
    }
  }

  lemma {:induction false} NoReservationist(effects: seq<Effect>)
    requires forall i :: 0 <= i < |effects| ==> !effects[i].ReservationistDone?
    ensures Count(effects, ClosesReservationist) == 0 && ResourcesFirst(effects)
  {
    if effects != [] {
      NoReservationist(effects[..|effects| - 1]);
    }
  }

  lemma {:induction false} EachRequestIs(resources: seq<nat>)
    ensures forall i :: 0 <= i < |EachRequestDone(resources)| ==> EachRequestDone(resources)[i].ResourceRequestDone?
  {
    if resources != [] {
      EachRequestIs(resources[..|resources| - 1]);
    }
  }

  lemma RequestEffectsTell(c: Context)
    ensures Tells(RequestEffects(c), c) && Count(RequestEffects(c), ClosesWork) == 0
  {
    RequestTells(c);
    RequestCount(c, ClosesWork);
    RequestCount(c, ClosesRequest);
    EachRequestIs(c.resources);
    NoReservationist(RequestEffects(c));
    ResourcesEnd(c);
  }

  lemma WorkEffectsTell(c: Context)
    ensures Tells(WorkEffects(c), c) && Count(WorkEffects(c), ClosesRequest) == 0
  {
    WorkTells(c);
    WorkCount(c, ClosesRequest);
    WorkCount(c, ClosesWork);
    WorkCount(c, ClosesReservationist);
    ResourcesEnd(c);
  }

  // Closing returns no executor.
  lemma ResourcesEnd(c: Context)
    ensures forall e :: e in RequestEffects(c) || e in WorkEffects(c) ==> !e.ExecutorReturned?
  {
    EachWorkIs(c.resources);
    EachRequestIs(c.resources);
  }

  lemma OneTells(e: Effect, c: Context)
    requires e.QueuedForLater? || (e.ExecutorReturned? && !c.cloned && c.executor == Some(e.executor))
    ensures Tells([e], c) && Count([e], ClosesRequest) == 0 == Count([e], ClosesWork)
  {
    ToldOne(e);
    CountOne(e, ClosesRequest);
    CountOne(e, ClosesWork);
    NoReservationist([e]);
  }

  // Contexts that tell the same.
  predicate TellAlike(c: Context, c': Context) {
    c'.cloned == c.cloned && c'.executor == c.executor && c'.resources == c.resources
  }

  lemma BothCount(a: seq<Effect>, b: seq<Effect>, c: Context, c': Context)
    requires TellsOfRequest(a, c) && TellsOfWork(a, c)
    requires TellsOfRequest(b, c') && TellsOfWork(b, c') && TellAlike(c, c')
    requires Count(b, ClosesRequest) == 0 && (Count(a, ClosesWork) == 0 || Count(b, ClosesWork) == 0)
    ensures TellsOfRequest(a + b, c) && TellsOfWork(a + b, c)
    ensures Count(a + b, ClosesRequest) == Count(a, ClosesRequest)
    ensures Count(a + b, ClosesWork) == Count(a, ClosesWork) + Count(b, ClosesWork)
  {
    ToldAppend(a, b);
    CountAppend(a, b, ClosesRequest);
    CountAppend(a, b, ClosesWork);
    assert c.resources + [] == c.resources && [] + c.resources == c.resources;
  }

  lemma BothTell(a: seq<Effect>, b: seq<Effect>, c: Context, c': Context)
    requires Tells(a, c) && Tells(b, c') && TellAlike(c, c')
    requires Count(b, ClosesRequest) == 0
    requires Count(a, ClosesWork) == 0 || (Count(b, ClosesWork) == 0 && Count(b, ClosesReservationist) == 0)
    ensures Tells(a + b, c)
    ensures Count(a + b, ClosesRequest) == Count(a, ClosesRequest)
    ensures Count(a + b, ClosesWork) == Count(a, ClosesWork) + Count(b, ClosesWork)
  {
    BothCount(a, b, c, c');
    CountAppend(a, b, ClosesReservationist);
    ResourcesStayFirst(a, b);
  }

  lemma NothingTells(c: Context)
    ensures Tells([], c)
  {
  }

  lemma TaskTells(c: Context, t: Task)
    ensures Tells(TaskEffects(c, t), c)
    ensures Count(TaskEffects(c, t), ClosesRequest) == Bit(t.CloseRequest?)
    ensures Count(TaskEffects(c, t), ClosesWork) == Bit(t.CloseWork?)
  {
    match t
    case CloseRequest =>
      RequestEffectsTell(c);
      RequestCount(c, ClosesRequest);
    case CloseWork =>
      WorkEffectsTell(c);
      WorkCount(c, ClosesWork);
    case QueueUp => OneTells(QueuedForLater, c);
  }

  lemma RanTells(c: Context, t: Task, sameLoop: bool)
    ensures Tells(Ran(c, t, sameLoop).effects, c) && TellAlike(c, Ran(c, t, sameLoop).context)
    ensures Count(Ran(c, t, sameLoop).effects, ClosesRequest) <= Bit(t.CloseRequest?)
    ensures Count(Ran(c, t, sameLoop).effects, ClosesWork) <= Bit(t.CloseWork?)
  {
    NothingTells(c);
    TaskTells(c, t);
  }

  lemma ReturnedTells(c: Context)
    requires c.executor.Some?
    ensures Tells(Returned(c).effects, c)
    ensures forall k :: k == ClosesRequest || k == ClosesWork || k == ClosesReservationist ==>
      Count(Returned(c).effects, k) == 0
  {
    if c.cloned {
      NothingTells(c);
    } else {
      OneTells(ExecutorReturned(c.executor.value), c);
      CountOne(ExecutorReturned(c.executor.value), ClosesReservationist);
    }
  }

  lemma WorkDoneTells(c: Context, sameLoop: bool)
    ensures Tells(WorkDone(c, sameLoop).effects, c) && Count(WorkDone(c, sameLoop).effects, ClosesRequest) == 0
  {
    if c.executor.None? {
      NothingTells(c);
    } else {
      var ran := Ran(c, CloseWork, sameLoop);
      RanTells(c, CloseWork, sameLoop);
      ReturnedTells(ran.context);
      BothTell(ran.effects, Returned(ran.context).effects, c, ran.context);
    }
  }

  lemma RestTells(c: Context, sameLoop: bool)
    ensures Tells(Rest(c, sameLoop).effects, c) && Count(Rest(c, sameLoop).effects, ClosesRequest) == 0
  {
    if HandsOff(c) {
      RanTells(c, QueueUp, sameLoop);
    } else {
      WorkDoneTells(c, sameLoop);
    }
  }

  lemma MarkedTells(effects: seq<Effect>, c: Context)
    requires Tells(effects, c.(finished := true))
    ensures Tells(effects, c)
  {
  }

  lemma FinishedTells(c: Context, sameLoop: bool)
    ensures Tells(Finished(c, sameLoop).effects, c)
  {
    if c.finished || c.executor.None? {
      NothingTells(c);
    } else {
      var c1 := c.(finished := true);
      var ran := Ran(c1, CloseRequest, sameLoop);
      RanTells(c1, CloseRequest, sameLoop);
      RestTells(ran.context, sameLoop);
      BothTell(ran.effects, Rest(ran.context, sameLoop).effects, c1, ran.context);
      MarkedTells(Finished(c, sameLoop).effects, c);
    }
  }

  lemma {:induction false} EffectsTagged(log: seq<(nat, Effect)>, i: nat, effects: seq<Effect>, j: nat)
    ensures EffectsOf(log + Tagged(i, effects), j) == EffectsOf(log, j) + if i == j then effects else []
  {
    if effects == [] {
      assert log + [] == log;
    } else {
      var front, last := effects[..|effects| - 1], effects[|effects| - 1];
      EffectsTagged(log, i, front, j);
      var all := log + Tagged(i, effects);
      assert all[..|all| - 1] == log + Tagged(i, front) && all[|all| - 1] == (i, last);
      assert effects == front + [last];
    }
  }

  // What a step of a run does, and whose it is.
  lemma StepDoes(s: System, op: Op) returns (who: nat, done: seq<Effect>)
    ensures Step(s, op).log == s.log + Tagged(who, done)
    ensures who < |s.contexts| ==> Tells(done, s.contexts[who])
  {
    who, done := |s.contexts|, [];
    assert s.log + [] == s.log;
    if op.Finish? && Present(s, op.context) {
      who, done := op.context, Finished(s.contexts[op.context], op.sameLoop).effects;
      FinishedTells(s.contexts[op.context], op.sameLoop);
    } else if op.MonitorFinishes? && Present(s, op.context) && s.pending[op.context] > 0 {
      who, done := op.context, WorkDone(s.contexts[op.context], false).effects;
      WorkDoneTells(s.contexts[op.context], false);
    } else if op.RunTask? && s.tasks != [] && Present(s, s.tasks[0].0) {
      who, done := s.tasks[0].0, TaskEffects(s.contexts[s.tasks[0].0], s.tasks[0].1);
      TaskTells(s.contexts[s.tasks[0].0], s.tasks[0].1);
    }
  }

  // A step of a run adds effects to those of one context, and they tell whom they should.
  lemma StepTells(s: System, op: Op, i: nat) returns (more: seq<Effect>)
    requires i < |s.contexts|
    ensures Tells(more, s.contexts[i])
    ensures EffectsOf(Step(s, op).log, i) == EffectsOf(s.log, i) + more
    ensures CountIn(Step(s, op).log, i, ClosesRequest) == CountIn(s.log, i, ClosesRequest) + Count(more, ClosesRequest)
    ensures CountIn(Step(s, op).log, i, ClosesWork) == CountIn(s.log, i, ClosesWork) + Count(more, ClosesWork)
  {
    var who, done := StepDoes(s, op);
    EffectsTagged(s.log, who, done, i);
    CountTagged(s.log, who, done, i, ClosesRequest);
    CountTagged(s.log, who, done, i, ClosesWork);
    if who == i {
      more := done;
    } else {
      more := [];
      NothingTells(s.contexts[i]);
    }
  }

  // A resource that is added is held by that context from then on; a copy starts with none, and an
  // open queue of its own.
  lemma HeldFromThen(s: System, i: nat, resource: nat, invocation: Option<bool>)
    requires i < |s.contexts| == |s.pending|
    ensures var added := Step(s, Add(i, resource));
      && added.contexts == s.contexts[i := s.contexts[i].(resources := s.contexts[i].resources + [resource])]
      && added.log == s.log && added.pending == s.pending && added.tasks == s.tasks
    ensures var copied := Step(s, Copy(i, invocation));
      && |copied.contexts| == |copied.pending| == |s.contexts| + 1 && copied.log == s.log && copied.tasks == s.tasks
      && (forall j :: 0 <= j < |s.contexts| ==>
            copied.contexts[j] == s.contexts[j] && copied.pending[j] == s.pending[j])
      && var c, copy := s.contexts[i], copied.contexts[|s.contexts|];
      && copy.cloned && copy.queueOpen && copy.resources == [] && copied.pending[|s.contexts|] == 0
      && copy.isEvent == (if invocation.Some? then invocation.value else c.isEvent)
      && copy.finished == c.finished == copy.bornFinished && copy.executor == c.executor
      && copy.hasWorkQueue == c.hasWorkQueue && copy.hasReservationist == c.hasReservationist
  {
  }

  /* ---------- whole runs ---------- */

  // Operation k of the run is the one that closes the request, or the work, of context i.
  predicate ClosesAt(b: System, ops: seq<Op>, k: nat, i: nat, kind: Kind)
    requires k < |ops|
  {
    CountIn(Run(b, ops[..k + 1]).log, i, kind) > CountIn(Run(b, ops[..k]).log, i, kind)
  }

  // Those told are the resources context i held when its request, or its work, was closed.
  ghost predicate HeldThen(b: System, ops: seq<Op>, i: nat, kind: Kind, told: seq<nat>) {
    exists k :: 0 <= k < |ops| && ClosesAt(b, ops, k, i, kind) &&
      i < |Run(b, ops[..k]).contexts| && told == Run(b, ops[..k]).contexts[i].resources
  }

  // What context i has told of by now.
  ghost predicate ToldSoFar(b: System, ops: seq<Op>, i: nat) {
    ToldIn(Run(b, ops), b, ops, i)
  }

  ghost predicate ToldIn(s: System, b: System, ops: seq<Op>, i: nat) {
    var mine := EffectsOf(s.log, i);
    && (if CountIn(s.log, i, ClosesRequest) == 0 then ToldOfRequest(mine) == []
        else HeldThen(b, ops, i, ClosesRequest, ToldOfRequest(mine)))
    && (if CountIn(s.log, i, ClosesWork) == 0 then ToldOfWork(mine) == []
        else HeldThen(b, ops, i, ClosesWork, ToldOfWork(mine)))
    && QueueClosings(mine) == CountIn(s.log, i, ClosesRequest)
    && Count(mine, ClosesReservationist) <= CountIn(s.log, i, ClosesWork)
    && ResourcesFirst(mine)
  }

  // The queue is open until the request is closed, and only the one executor is returned.
  ghost predicate StillOpen(s: System, i: nat, lease: nat)
    requires i < |s.contexts|
  {
    && s.contexts[i].queueOpen == (CountIn(s.log, i, ClosesRequest) == 0)
    && (forall e :: e in EffectsOf(s.log, i) && e.ExecutorReturned? ==> e.executor == lease)
  }

  lemma OncePerRun(s: System, i: nat, lease: nat)
    requires Ok(s, lease) && i < |s.contexts|
    ensures CountIn(s.log, i, ClosesRequest) <= 1 && CountIn(s.log, i, ClosesWork) <= 1
    ensures !s.contexts[i].cloned ==> s.contexts[i].executor.None? || s.contexts[i].executor == Some(lease)
  {
    assert ContextOk(s.contexts[i], i, s.pending[i], s.log, s.tasks, lease);
  }

  lemma HeldLater(b: System, front: seq<Op>, op: Op, i: nat, kind: Kind, told: seq<nat>)
    requires HeldThen(b, front, i, kind, told)
    ensures HeldThen(b, front + [op], i, kind, told)
  {
    var ops := front + [op];
    var k :| 0 <= k < |front| && ClosesAt(b, front, k, i, kind) &&
      i < |Run(b, front[..k]).contexts| && told == Run(b, front[..k]).contexts[i].resources;
    assert ops[..k + 1] == front[..k + 1] && ops[..k] == front[..k];
    assert ClosesAt(b, ops, k, i, kind);
  }

  lemma HeldNow(b: System, front: seq<Op>, op: Op, i: nat, kind: Kind)
    requires i < |Run(b, front).contexts|
    requires CountIn(Step(Run(b, front), op).log, i, kind) > CountIn(Run(b, front).log, i, kind)
    ensures HeldThen(b, front + [op], i, kind, Run(b, front).contexts[i].resources)
  {
    var ops := front + [op];
    assert ops[..|front|] == front && ops[..|front| + 1] == ops;
    assert ClosesAt(b, ops, |front|, i, kind);
  }

  lemma {:induction false} NoEffectsYet(log: seq<(nat, Effect)>, i: nat)
    requires forall k :: CountIn(log, i, k) == 0
    ensures EffectsOf(log, i) == []
  {
    if log != [] {
      var front, last := log[..|log| - 1], log[|log| - 1];
      assert CountIn(log, i, KindOf(last.1)) == 0;
      forall k: Kind
        ensures CountIn(front, i, k) == 0
      {
        assert CountIn(log, i, k) == 0;
      }
      NoEffectsYet(front, i);
    }
  }

  // A context that was just copied has told nobody anything.
  lemma NewTold(b: System, ops: seq<Op>, i: nat, lease: nat)
    requires i < |Run(b, ops).contexts| && Run(b, ops).contexts[i].queueOpen
    requires forall k :: CountIn(Run(b, ops).log, i, k) == 0
    ensures ToldSoFar(b, ops, i) && StillOpen(Run(b, ops), i, lease)
  {
    NoEffectsYet(Run(b, ops).log, i);
    assert ResourcesFirst([]);
  }

  lemma RunStep(b: System, front: seq<Op>, op: Op)
    ensures Run(b, front + [op]) == Step(Run(b, front), op)
  {
    assert (front + [op])[..|front|] == front;
  }

  lemma ToldStep(b: System, front: seq<Op>, op: Op, i: nat, lease: nat)
    requires i < |Run(b, front).contexts| && ToldSoFar(b, front, i) && StillOpen(Run(b, front), i, lease)
    requires CountIn(Step(Run(b, front), op).log, i, ClosesRequest) <= 1
    requires CountIn(Step(Run(b, front), op).log, i, ClosesWork) <= 1
    ensures ToldIn(Step(Run(b, front), op), b, front + [op], i)
  {
    var s := Run(b, front);
    var more := StepTells(s, op, i);
    OthersStep(b, front, op, i, more);
    ToldRequestStep(b, front, op, i, more);
    ToldWorkStep(b, front, op, i, more);
  }

  lemma OthersStep(b: System, front: seq<Op>, op: Op, i: nat, more: seq<Effect>)
    requires i < |Run(b, front).contexts| && ToldSoFar(b, front, i) && Tells(more, Run(b, front).contexts[i])
    requires Count(more, ClosesRequest) > 0 ==> Run(b, front).contexts[i].queueOpen
    requires CountIn(Run(b, front).log, i, ClosesWork) + Count(more, ClosesWork) <= 1
    ensures var mine := EffectsOf(Run(b, front).log, i);
      && QueueClosings(mine + more) == CountIn(Run(b, front).log, i, ClosesRequest) + Count(more, ClosesRequest)
      && Count(mine + more, ClosesReservationist) <= CountIn(Run(b, front).log, i, ClosesWork) + Count(more, ClosesWork)
      && ResourcesFirst(mine + more)
  {
    var mine := EffectsOf(Run(b, front).log, i);
    ToldAppend(mine, more);
    CountAppend(mine, more, ClosesReservationist);
    ResourcesStayFirst(mine, more);
  }

  lemma ToldRequestStep(b: System, front: seq<Op>, op: Op, i: nat, more: seq<Effect>)
    requires i < |Run(b, front).contexts| && ToldSoFar(b, front, i) && TellsOfRequest(more, Run(b, front).contexts[i])
    requires EffectsOf(Step(Run(b, front), op).log, i) == EffectsOf(Run(b, front).log, i) + more
    requires CountIn(Step(Run(b, front), op).log, i, ClosesRequest) ==
      CountIn(Run(b, front).log, i, ClosesRequest) + Count(more, ClosesRequest) <= 1
    ensures var told := ToldOfRequest(EffectsOf(Step(Run(b, front), op).log, i));
      if CountIn(Step(Run(b, front), op).log, i, ClosesRequest) == 0 then told == []
      else HeldThen(b, front + [op], i, ClosesRequest, told)
  {
    var before := ToldOfRequest(EffectsOf(Run(b, front).log, i));
    ToldAppend(EffectsOf(Run(b, front).log, i), more);
    assert before + [] == before;
    if Count(more, ClosesRequest) == 1 {
      HeldNow(b, front, op, i, ClosesRequest);
      assert before + ToldOfRequest(more) == Run(b, front).contexts[i].resources;
    } else if CountIn(Run(b, front).log, i, ClosesRequest) == 1 {
      HeldLater(b, front, op, i, ClosesRequest, before);
    }
  }

  lemma ToldWorkStep(b: System, front: seq<Op>, op: Op, i: nat, more: seq<Effect>)
    requires i < |Run(b, front).contexts| && ToldSoFar(b, front, i) && TellsOfWork(more, Run(b, front).contexts[i])
    requires EffectsOf(Step(Run(b, front), op).log, i) == EffectsOf(Run(b, front).log, i) + more
    requires CountIn(Step(Run(b, front), op).log, i, ClosesWork) ==
      CountIn(Run(b, front).log, i, ClosesWork) + Count(more, ClosesWork) <= 1
    ensures var told := ToldOfWork(EffectsOf(Step(Run(b, front), op).log, i));
      if CountIn(Step(Run(b, front), op).log, i, ClosesWork) == 0 then told == []
      else HeldThen(b, front + [op], i, ClosesWork, told)
  {
    var before := ToldOfWork(EffectsOf(Run(b, front).log, i));
    ToldAppend(EffectsOf(Run(b, front).log, i), more);
    assert before + [] == before;
    if Count(more, ClosesWork) == 1 {
      HeldNow(b, front, op, i, ClosesWork);
      assert before + ToldOfWork(more) == Run(b, front).contexts[i].resources;
    } else if CountIn(Run(b, front).log, i, ClosesWork) == 1 {
      HeldLater(b, front, op, i, ClosesWork, before);
    }
  }

  // Only closing its request closes the queue of a context.
  lemma OpenStep(s: System, op: Op, i: nat, lease: nat)
    requires Ok(s, lease) && i < |s.contexts| && StillOpen(s, i, lease)
    ensures i < |Step(s, op).contexts| && StillOpen(Step(s, op), i, lease)
  {
    OncePerRun(s, i, lease);
    var more := StepTells(s, op, i);
    QueueAfter(s, op, i, lease);
  }

  predicate ClosesQueue(c: Context, o: Outcome) {
    o.context.queueOpen == (c.queueOpen && Count(o.effects, ClosesRequest) == 0)
  }

  lemma QueueBecomes(s: System, s0: System, j: nat, o: Outcome, i: nat)
    requires Present(s, j) && i < |s.contexts| && ClosesQueue(s.contexts[j], o)
    requires s0.contexts == s.contexts && s0.log == s.log && |s0.pending| == |s.pending|
    ensures var s' := Become(s0, j, o);
      i < |s'.contexts| && s'.contexts[i].queueOpen ==
        (s.contexts[i].queueOpen && CountIn(s'.log, i, ClosesRequest) == CountIn(s.log, i, ClosesRequest))
  {
    CountTagged(s.log, j, o.effects, i, ClosesRequest);
  }

  lemma QueueAfter(s: System, op: Op, i: nat, lease: nat)
    requires Ok(s, lease) && i < |s.contexts|
    ensures i < |Step(s, op).contexts|
    ensures Step(s, op).contexts[i].queueOpen ==
      (s.contexts[i].queueOpen && CountIn(Step(s, op).log, i, ClosesRequest) == CountIn(s.log, i, ClosesRequest))
  {
    match op
    case Finish(j, sameLoop) => if Present(s, j) { QueueFinish(s, j, sameLoop, i); }
    case MonitorFinishes(j) => if Present(s, j) && s.pending[j] > 0 { QueueMonitor(s, j, i); }
    case RunTask => if s.tasks != [] && Present(s, s.tasks[0].0) { QueueTask(s, i); }
    case _ =>
  }

  lemma QueueFinish(s: System, j: nat, sameLoop: bool, i: nat)
    requires Present(s, j) && i < |s.contexts|
    ensures var s' := Step(s, Finish(j, sameLoop));
      i < |s'.contexts| && s'.contexts[i].queueOpen ==
        (s.contexts[i].queueOpen && CountIn(s'.log, i, ClosesRequest) == CountIn(s.log, i, ClosesRequest))
  {
    FinishedCloses(s.contexts[j], sameLoop);
    QueueBecomes(s, s, j, Finished(s.contexts[j], sameLoop), i);
  }

  lemma QueueMonitor(s: System, j: nat, i: nat)
    requires Present(s, j) && i < |s.contexts| && s.pending[j] > 0
    ensures var s' := Step(s, MonitorFinishes(j));
      i < |s'.contexts| && s'.contexts[i].queueOpen ==
        (s.contexts[i].queueOpen && CountIn(s'.log, i, ClosesRequest) == CountIn(s.log, i, ClosesRequest))
  {
    WorkKeepsQueue(s.contexts[j]);
    QueueBecomes(s, s.(pending := s.pending[j := s.pending[j] - 1]), j, WorkDone(s.contexts[j], false), i);
  }

  lemma WorkKeepsQueue(c: Context)
    ensures ClosesQueue(c, WorkDone(c, false))
  {
    WorkDoneTells(c, false);
  }

  lemma QueueTask(s: System, i: nat)
    requires s.tasks != [] && Present(s, s.tasks[0].0) && i < |s.contexts|
    ensures var s' := Step(s, RunTask);
      i < |s'.contexts| && s'.contexts[i].queueOpen ==
        (s.contexts[i].queueOpen && CountIn(s'.log, i, ClosesRequest) == CountIn(s.log, i, ClosesRequest))
  {
    var (j, t) := s.tasks[0];
    var c := s.contexts[j];
    TaskTells(c, t);
    QueueBecomes(s, s.(tasks := s.tasks[1..]), j, Outcome(TaskRun(c, t), TaskEffects(c, t), [], false), i);
  }

  lemma FinishedCloses(c: Context, sameLoop: bool)
    ensures Count(Finished(c, sameLoop).effects, ClosesRequest) == Bit(!c.finished && c.executor.Some? && !sameLoop)
    ensures Finished(c, sameLoop).context.queueOpen ==
      (c.queueOpen && Count(Finished(c, sameLoop).effects, ClosesRequest) == 0)
  {
    if !c.finished && c.executor.Some? {
      var c1 := c.(finished := true);
      var ran := Ran(c1, CloseRequest, sameLoop);
      TaskTells(c1, CloseRequest);
      RestCloses(ran.context, sameLoop);
      CountAppend(ran.effects, Rest(ran.context, sameLoop).effects, ClosesRequest);
    }
  }

  lemma RestCloses(c: Context, sameLoop: bool)
    ensures Count(Rest(c, sameLoop).effects, ClosesRequest) == 0
    ensures Rest(c, sameLoop).context.queueOpen == c.queueOpen
  {
    RestTells(c, sameLoop);
  }

  lemma {:induction false} EveryoneTold(isEvent: bool, hasWorkQueue: bool, hasReservationist: bool, lease: nat,
                                        ops: seq<Op>, i: nat)
    requires var b := Begin(isEvent, hasWorkQueue, hasReservationist, lease); i < |Run(b, ops).contexts|
    ensures var b := Begin(isEvent, hasWorkQueue, hasReservationist, lease);
      ToldSoFar(b, ops, i) && StillOpen(Run(b, ops), i, lease)
  {
    var b := Begin(isEvent, hasWorkQueue, hasReservationist, lease);
    if ops == [] {
      NewTold(b, ops, i, lease);
    } else {
      var front, op := ops[..|ops| - 1], ops[|ops| - 1];
      assert ops == front + [op];
      RunOk(isEvent, hasWorkQueue, hasReservationist, lease, front);
      RunOk(isEvent, hasWorkQueue, hasReservationist, lease, ops);
      RunStep(b, front, op);
      if i < |Run(b, front).contexts| {
        EveryoneTold(isEvent, hasWorkQueue, hasReservationist, lease, front, i);
        OpenStep(Run(b, front), op, i, lease);
        OncePerRun(Run(b, ops), i, lease);
        ToldStep(b, front, op, i, lease);
      } else {
        CopiedOpen(Run(b, front), op, i);
        NewTold(b, ops, i, lease);
      }
    }
  }

  lemma CopiedOpen(s: System, op: Op, i: nat)
    requires |s.contexts| <= i < |Step(s, op).contexts|
    ensures Step(s, op).contexts[i].queueOpen && Step(s, op).log == s.log
  {
  }

  // In any run of any tree of copies, once the loop has caught up: a context that was finished
  // has told exactly the resources it held as its request was closed, each once and in order, and
  // closed its queue once; one that was not, and a copy of a finished one, has told nobody.  Once
  // its work is done, the same of the work, the reservationist last.  Only the executor of the
  // request is ever returned.
  lemma FinishedTellsEveryone(isEvent: bool, hasWorkQueue: bool, hasReservationist: bool, lease: nat,
                              ops: seq<Op>, i: nat)
    requires var b := Begin(isEvent, hasWorkQueue, hasReservationist, lease);
      i < |Run(b, ops).contexts| && Run(b, ops).tasks == []
    ensures var b := Begin(isEvent, hasWorkQueue, hasReservationist, lease);
      var s := Run(b, ops);
      var c, mine := s.contexts[i], EffectsOf(s.log, i);
      && i < |s.pending|
      && (if c.finished && !c.bornFinished
          then HeldThen(b, ops, i, ClosesRequest, ToldOfRequest(mine)) && QueueClosings(mine) == 1 && !c.queueOpen
          else ToldOfRequest(mine) == [] && QueueClosings(mine) == 0 && c.queueOpen)
      && (if c.finished && !c.bornFinished && s.pending[i] == 0
          then HeldThen(b, ops, i, ClosesWork, ToldOfWork(mine))
          else ToldOfWork(mine) == [])
      && ResourcesFirst(mine)
      && (forall e :: e in mine && e.ExecutorReturned? ==> e.executor == lease)
  {
    var b := Begin(isEvent, hasWorkQueue, hasReservationist, lease);
    RunOk(isEvent, hasWorkQueue, hasReservationist, lease, ops);
    assert LogOk(Run(b, ops), i, lease);
    EveryoneTold(isEvent, hasWorkQueue, hasReservationist, lease, ops, i);
  }
}
