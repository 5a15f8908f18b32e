// What is still run on an executor once it has been returned to the pool.
module RequestAftermath {
  import opened PyDicts
  import opened InvocationContext
  import opened RequestRuns

  // The original has returned the executor.
  predicate HasReturned(s: System) {
    CountIn(s.log, 0, ReturnsExecutor) == 1
  }

  // The operation finds something left to close.
  predicate HasWorkLeft(s: System, op: Op) {
    match op
    case Finish(i, _) => Present(s, i) && !s.contexts[i].finished
    case MonitorFinishes(i) => Present(s, i) && s.pending[i] > 0
    case RunTask => s.tasks != []
    case _ => false
  }

  predicate SameDone(s: System, s': System) {
    s'.log == s.log && s'.tasks == s.tasks
  }

  lemma {:induction false} TaggedLength<T>(i: nat, all: seq<T>)
    ensures |Tagged(i, all)| == |all|
  {
    if all != [] {
      TaggedLength(i, all[..|all| - 1]);
    }
  }

  lemma BecomeDoes(s: System, i: nat, o: Outcome)
    requires Present(s, i) && (o.effects != [] || o.tasks != [])
    ensures !SameDone(s, Become(s, i, o))
    ensures o.effects != [] ==> Become(s, i, o).log != s.log
  {
    TaggedLength(i, o.effects);
    TaggedLength(i, o.tasks);
    assert |Become(s, i, o).log| == |s.log| + |o.effects|;
    assert |Become(s, i, o).tasks| == |s.tasks| + |o.tasks|;
  }

  lemma FinishedDoes(c: Context, sameLoop: bool)
    requires c.executor.Some? && !c.finished
    ensures Finished(c, sameLoop).effects != [] || Finished(c, sameLoop).tasks != []
    ensures !sameLoop ==> Finished(c, sameLoop).effects != []
  {
    var ran := Ran(c.(finished := true), CloseRequest, sameLoop);
    if sameLoop {
      assert Finished(c, sameLoop).tasks[0] == CloseRequest;
    } else {
      assert Finished(c, sameLoop).effects[0] == RequestClosed;
    }
  }

  // The original has nothing left but what it left to the loop; everyone else who has, has the
  // executor.
  lemma WhoIsLeft(s: System, i: nat, lease: nat)
    requires Ok(s, lease) && HasReturned(s) && i < |s.contexts|
    requires !s.contexts[i].finished || s.pending[i] > 0
    ensures i > 0 && s.contexts[i].executor == Some(lease)
  {
    assert ContextOk(s.contexts[i], i, s.pending[i], s.log, s.tasks, lease);
  }

  lemma TaskDoes(s: System)
    requires s.tasks != [] && Present(s, s.tasks[0].0)
    ensures Step(s, RunTask).log != s.log
  {
    var (i, t) := s.tasks[0];
    var effects := TaskEffects(s.contexts[i], t);
    TaggedLength(i, effects);
    assert t == CloseRequest ==> effects[0] == RequestClosed;
    assert t == CloseWork ==> effects[0] == WorkClosed;
    assert |Step(s, RunTask).log| == |s.log| + |effects|;
  }

  lemma FinishDoes(s: System, i: nat, sameLoop: bool, lease: nat)
    requires Ok(s, lease) && i < |s.contexts| && !s.contexts[i].finished
    ensures !SameDone(s, Step(s, Finish(i, sameLoop)))
    ensures !sameLoop ==> Step(s, Finish(i, sameLoop)).log != s.log
  {
    StillHasExecutor(s, i, lease);
    FinishingDoes(s, i, sameLoop);
  }

  lemma StillHasExecutor(s: System, i: nat, lease: nat)
    requires Ok(s, lease) && i < |s.contexts| && (!s.contexts[i].finished || s.pending[i] > 0)
    ensures s.contexts[i].executor == Some(lease)
  {
    assert ContextOk(s.contexts[i], i, s.pending[i], s.log, s.tasks, lease);
  }

  lemma FinishingDoes(s: System, i: nat, sameLoop: bool)
    requires Present(s, i) && s.contexts[i].executor.Some? && !s.contexts[i].finished
    ensures !SameDone(s, Step(s, Finish(i, sameLoop)))
    ensures !sameLoop ==> Step(s, Finish(i, sameLoop)).log != s.log
  {
    FinishedDoes(s.contexts[i], sameLoop);
    BecomeDoes(s, i, Finished(s.contexts[i], sameLoop));
  }

  lemma MonitorDoes(s: System, i: nat, lease: nat)
    requires Ok(s, lease) && i < |s.contexts| && s.pending[i] > 0
    ensures Step(s, MonitorFinishes(i)).log != s.log
  {
    var c := s.contexts[i];
    assert ContextOk(c, i, s.pending[i], s.log, s.tasks, lease);
    var o := WorkDone(c, false);
    assert o.effects[0] == WorkClosed;
    TaggedLength(i, o.effects);
    assert |Step(s, MonitorFinishes(i)).log| == |s.log| + |o.effects|;
  }

  // Once the original has returned the executor, a step still does something exactly when it
  // finishes a context that was not finished, finishes work that was handed off, or is a task
  // the loop has yet to get to; the first two are always a copy's, on the executor that was
  // returned: nothing makes the original wait.
  lemma UsedAfterReturn(s: System, op: Op, lease: nat)
    requires Ok(s, lease) && HasReturned(s)
    ensures !SameDone(s, Step(s, op)) <==> HasWorkLeft(s, op)
    ensures HasWorkLeft(s, op) && !op.RunTask? ==> op.context > 0 && s.contexts[op.context].executor == Some(lease)
  {
    match op
    case Finish(i, sameLoop) =>
      if Present(s, i) {
        if s.contexts[i].finished {
          FinishedAgain(s, i, sameLoop);
        } else {
          FinishDoes(s, i, sameLoop, lease);
          WhoIsLeft(s, i, lease);
        }
      }
    case MonitorFinishes(i) =>
      if Present(s, i) && s.pending[i] > 0 {
        MonitorDoes(s, i, lease);
        WhoIsLeft(s, i, lease);
      }
    case RunTask =>
      if s.tasks != [] {
        assert s.tasks[0] in s.tasks;
        TaskDoes(s);
      }
    case _ =>
  }

  /* ---------- whole continuations ---------- */

  // Nothing that is done from here on has any effect.
  ghost predicate Quiet(s: System) {
    forall ops :: NoEffect(s, ops)
  }

  predicate NoEffect(s: System, ops: seq<Op>) {
    Run(s, ops).log == s.log
  }

  ghost predicate AllDone(s: System) {
    && |s.contexts| == |s.pending| && s.tasks == [] && !s.crashed
    && forall i :: 0 <= i < |s.contexts| ==> s.contexts[i].finished && s.pending[i] == 0
  }

  lemma DoneStays(s: System, op: Op)
    requires AllDone(s)
    ensures AllDone(Step(s, op)) && Step(s, op).log == s.log
  {
    if op.Finish? && Present(s, op.context) {
      FinishedAgain(s, op.context, op.sameLoop);
    }
  }

  lemma {:induction false} DoneIsQuiet(s: System, ops: seq<Op>)
    requires AllDone(s)
    ensures AllDone(Run(s, ops)) && NoEffect(s, ops)
  {
    if ops != [] {
      DoneIsQuiet(s, ops[..|ops| - 1]);
      DoneStays(Run(s, ops[..|ops| - 1]), ops[|ops| - 1]);
    }
  }

  lemma OneStep(s: System, op: Op)
    ensures Run(s, [op]) == Step(s, op)
  {
    assert [op][..0] == [];
  }

  // Whoever has something left to finish is a copy, and holds the executor.
  ghost predicate OnlyCopiesLeft(s: System, lease: nat) {
    && |s.contexts| == |s.pending|
    && forall i :: 0 <= i < |s.contexts| && (!s.contexts[i].finished || s.pending[i] > 0) ==>
         i > 0 && s.contexts[i].executor == Some(lease)
  }

  // At any time, nothing has an effect in any continuation exactly when every context is finished,
  // no work is pending and the loop has caught up; and once the executor is returned, whoever
  // still has something to finish is a copy that finishes it on that executor.
  lemma QuietExactly(s: System, lease: nat)
    requires Ok(s, lease)
    ensures Quiet(s) <==> AllDone(s)
    ensures HasReturned(s) ==> OnlyCopiesLeft(s, lease)
  {
    if HasReturned(s) {
      forall i | 0 <= i < |s.contexts| && (!s.contexts[i].finished || s.pending[i] > 0)
        ensures i > 0 && s.contexts[i].executor == Some(lease)
      {
        WhoIsLeft(s, i, lease);
      }
    }
    if AllDone(s) {
      forall ops: seq<Op>
        ensures NoEffect(s, ops)
      {
        DoneIsQuiet(s, ops);
      }
    } else {
      var op := Loud(s, lease);
      OneStep(s, op);
      assert !NoEffect(s, [op]);
    }
  }

  lemma Loud(s: System, lease: nat) returns (op: Op)
    requires Ok(s, lease) && !AllDone(s)
    ensures Step(s, op).log != s.log
  {
    if s.tasks != [] {
      op := RunTask;
      assert s.tasks[0] in s.tasks;
      TaskDoes(s);
    } else {
      var i :| 0 <= i < |s.contexts| && !(s.contexts[i].finished && s.pending[i] == 0);
      if s.contexts[i].finished {
        op := MonitorFinishes(i);
        MonitorDoes(s, i, lease);
      } else {
        op := Finish(i, false);
        FinishDoes(s, i, false, lease);
      }
    }
  }

  // The shortest run that gets there: copy, finish the original, and the copy is left.
  lemma FinishedInTheWrongOrder(hasReservationist: bool, lease: nat)
    ensures var s := Run(Begin(false, true, hasReservationist, lease), [Copy(0, None), Finish(0, false)]);
      HasReturned(s) && HasWorkLeft(s, Finish(1, false))
  {
    var s0 := Begin(false, true, hasReservationist, lease);
    var ops := [Copy(0, None), Finish(0, false)];
    assert ops[..1] == [Copy(0, None)];
    OneStep(s0, Copy(0, None));
    RunOk(false, true, hasReservationist, lease, [Copy(0, None)]);
    var s1 := Step(s0, Copy(0, None));
    assert s1.contexts == s0.contexts + [Copied(s0.contexts[0], None)];
    FinishingReturns(s1, false, lease);
    assert Step(s1, Finish(0, false)).contexts[1] == s1.contexts[1];
  }

  // The original returns the executor as it finishes; whether its work is closed by then depends
  // exactly on the loop it is finished on: on the executor's own, the closing has yet to run.
  lemma FinishingReturns(s: System, sameLoop: bool, lease: nat)
    requires Ok(s, lease) && !s.contexts[0].finished && !HandsOff(s.contexts[0])
    ensures var s' := Step(s, Finish(0, sameLoop));
      && HasReturned(s')
      && (CountIn(s'.log, 0, ClosesWork) == 0 <==> sameLoop)
  {
    var c := s.contexts[0];
    NothingYet(s, lease);
    var o := Finished(c, sameLoop);
    CountTagged(s.log, 0, o.effects, 0, ReturnsExecutor);
    CountTagged(s.log, 0, o.effects, 0, ClosesWork);
    FinishedEffects(c, sameLoop);
  }

  // An original that is not finished has returned and closed nothing.
  lemma NothingYet(s: System, lease: nat)
    requires Ok(s, lease) && !s.contexts[0].finished
    ensures !s.contexts[0].cloned && s.contexts[0].executor.Some?
    ensures CountIn(s.log, 0, ReturnsExecutor) == 0 == CountIn(s.log, 0, ClosesWork)
  {
    assert ContextOk(s.contexts[0], 0, s.pending[0], s.log, s.tasks, lease);
  }

  // What an original does as it finishes.
  lemma FinishedEffects(c: Context, sameLoop: bool)
    requires c.executor.Some? && !c.finished && !HandsOff(c) && !c.cloned
    ensures Count(Finished(c, sameLoop).effects, ReturnsExecutor) == 1
    ensures Count(Finished(c, sameLoop).effects, ClosesWork) == Bit(!sameLoop)
  {
    FinishedCount(c, sameLoop, ReturnsExecutor);
    FinishedCount(c, sameLoop, ClosesWork);
    FinishedTasks(c, sameLoop);
  }

  // What an original leaves to the loop as it finishes.
  lemma FinishedTasks(c: Context, sameLoop: bool)
    requires c.executor.Some? && !c.finished && !HandsOff(c)
    ensures CountTasks(Finished(c, sameLoop).tasks, ClosesIt(c), ReturnsExecutor) == 0
    ensures CountTasks(Finished(c, sameLoop).tasks, ClosesIt(c), ClosesWork) == Bit(sameLoop)
  {
    TasksLeft(c, sameLoop);
    if sameLoop {
      BothTasks(ClosesIt(c), ReturnsExecutor);
      BothTasks(ClosesIt(c), ClosesWork);
    }
  }

  lemma TasksLeft(c: Context, sameLoop: bool)
    requires c.executor.Some? && !c.finished && !HandsOff(c)
    ensures Finished(c, sameLoop).tasks == if sameLoop then [CloseRequest] + [CloseWork] else []
  {
    var c1 := Closed(c, sameLoop);
    assert !HandsOff(c1) && Returned(c1).tasks == [];
    assert [CloseWork] + [] == [CloseWork];
  }

  lemma BothTasks(closes: bool, k: Kind)
    ensures CountTasks([CloseRequest] + [CloseWork], closes, k) ==
      TaskBit(CloseRequest, closes, k) + TaskBit(CloseWork, closes, k)
  {
    TasksAppend([CloseRequest], [CloseWork], closes, k);
    OneTask(CloseRequest, closes, k);
    OneTask(CloseWork, closes, k);
  }
}
