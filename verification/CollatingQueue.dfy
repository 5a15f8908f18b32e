// The queue that collects a stream of messages and ends it once (async_collating_queue.py): the
// queue itself, and its steps under any interleaving of producers and one consumer.
module CollatingQueue {
  import opened PyDicts

  // An item, and whether it is a dictionary with a non-None "end" key.
  datatype Item<T> = Item(payload: T, hasEnd: bool) | EndMessage

  predicate IsFinalItem<T>(item: Item<T>) {
    item.EndMessage? || item.hasEnd
  }

  class AsyncCollatingQueue<T> {
    var queue: seq<Item<T>>
    var lastItemSent: bool

    constructor ()
      ensures queue == [] && !lastItemSent
    {
      queue, lastItemSent := [], false;
    }

    method Put(item: Item<T>, checkLastItemSent: bool)
      modifies this`queue
      ensures queue == if checkLastItemSent && lastItemSent then old(queue) else old(queue) + [item]
    {
      if checkLastItemSent && lastItemSent {
        return;
      }
      queue := queue + [item];
    }

    // Only the first call enqueues anything, until the next reset.
    method PutFinalItem()
      modifies this`queue, this`lastItemSent
      ensures lastItemSent
      ensures queue == if old(lastItemSent) then old(queue) else old(queue) + [EndMessage]
    {
      if lastItemSent {
        return;
      }
      lastItemSent := true;
      Put(EndMessage, false);
    }

    // None stands for the end of the iteration.
    method Next() returns (item: Option<Item<T>>)
      requires queue != []
      modifies this`queue
      ensures queue == old(queue)[1..]
      ensures item == if old(queue)[0].EndMessage? || old(queue)[0].hasEnd then None else Some(old(queue)[0])
    {
      var message := queue[0];
      queue := queue[1..];
      if IsFinalItem(message) {
        return None;
      }
      return Some(message);
    }

    method Reset()
      modifies this`lastItemSent
      ensures !lastItemSent
    {
      lastItemSent := false;
    }
  }

  /* ---------- interleaving ---------- */

  // put() checks the latch in one step and enqueues in another; put_final_item() sets the latch
  // in one step and enqueues in another.  A reset opens an epoch.
  datatype State<T> = State(
    log: seq<Item<T>>,                // everything ever enqueued, in order
    taken: nat,                       // how much of it the consumer has taken
    iterations: seq<seq<Item<T>>>,    // what each iteration that ended has produced
    yielded: seq<Item<T>>,            // what the present one has produced
    stopped: bool,                    // no iteration is under way
    latch: bool,
    putting: map<nat, Item<T>>,       // producers past the check
    ending: set<nat>,                 // producers that set the latch and have yet to enqueue the end
    start: nat,                       // where this epoch's part of the log starts
    carried: nat,                     // how many producers were in `ending` when it started
    latches: nat,                     // how often the latch was set in this epoch
    pastCheck: nat,                   // how many producers were past the check when it last was
    since: nat)                       // how many of those have enqueued since

  datatype Step<T> =
    | CheckPut(tid: nat, item: Item<T>)
    | EnqueuePut(tid: nat)
    | SetLatch(tid: nat)
    | EnqueueEnd(tid: nat)
    | Iterate       // a new loop over the queue; without effect while one is under way
    | Take
    | Reset

  function Init<T>(): State<T> {
    State([], 0, [], [], false, false, map[], {}, 0, 0, 0, 0, 0)
  }

  function Act<T>(s: State<T>, step: Step<T>): State<T> {
    match step
    case CheckPut(tid, item) =>
      if s.latch || tid in s.putting || tid in s.ending then s
      else s.(putting := s.putting[tid := item])
    case EnqueuePut(tid) =>
      if tid !in s.putting then s
      else s.(log := s.log + [s.putting[tid]], putting := s.putting - {tid}, since := s.since + 1)
    case SetLatch(tid) =>
      if s.latch || tid in s.putting || tid in s.ending then s
      else s.(latch := true, ending := s.ending + {tid}, latches := s.latches + 1,
              pastCheck := |s.putting|, since := 0)
    case EnqueueEnd(tid) =>
      if tid !in s.ending then s
      else s.(log := s.log + [EndMessage], ending := s.ending - {tid})
    case Iterate => s.(stopped := false)
    case Take =>
      if s.stopped || s.taken >= |s.log| then s
      else if IsFinalItem(s.log[s.taken]) then
        s.(taken := s.taken + 1, iterations := s.iterations + [s.yielded], yielded := [], stopped := true)
      else s.(taken := s.taken + 1, yielded := s.yielded + [s.log[s.taken]])
    case Reset => s.(latch := false, start := |s.log|, carried := |s.ending|, latches := 0)
  }

  function Run<T>(steps: seq<Step<T>>): State<T> {
    if steps == [] then Init() else Act(Run(steps[..|steps| - 1]), steps[|steps| - 1])
  }

  // Everything before the first final item, or everything.
  function BeforeEnd<T>(log: seq<Item<T>>): (front: seq<Item<T>>)
    ensures front <= log
  {
    if log == [] || IsFinalItem(log[0]) then [] else [log[0]] + BeforeEnd(log[1..])
  }

  function Ends<T>(log: seq<Item<T>>): nat {
    if log == [] then 0 else Ends(log[..|log| - 1]) + if log[|log| - 1].EndMessage? then 1 else 0
  }

  // How many items were enqueued after the first final one.
  function Behind<T>(log: seq<Item<T>>): nat {
    if |log| == |BeforeEnd(log)| then 0 else |log| - |BeforeEnd(log)| - 1
  }

  // The log cut at its final items, the last piece being what follows the last of them.
  function Segments<T>(log: seq<Item<T>>): (segments: seq<seq<Item<T>>>)
    ensures segments != []
  {
    if log == [] then [[]]
    else
      var front, last := Segments(log[..|log| - 1]), log[|log| - 1];
      if IsFinalItem(last) then front + [[]] else front[|front| - 1 := front[|front| - 1] + [last]]
  }

  function EpochPart<T>(s: State<T>): seq<Item<T>> {
    if s.start <= |s.log| then s.log[s.start..] else []
  }

  ghost predicate Ordinary<T>(item: Item<T>) {
    !IsFinalItem(item)
  }

  ghost predicate OrdinaryRun<T>(steps: seq<Step<T>>) {
    forall i :: 0 <= i < |steps| && steps[i].CheckPut? ==> Ordinary(steps[i].item)
  }

  ghost predicate OrdinaryState<T>(s: State<T>) {
    forall tid :: tid in s.putting ==> Ordinary(s.putting[tid])
  }

  /* ---------- nothing is lost on the way ---------- */

  function ActAll<T>(s: State<T>, steps: seq<Step<T>>): State<T> {
    if steps == [] then s else Act(ActAll(s, steps[..|steps| - 1]), steps[|steps| - 1])
  }

  predicate IsOf<T>(step: Step<T>, tid: nat) {
    match step
    case CheckPut(t, _) => t == tid
    case EnqueuePut(t) => t == tid
    case SetLatch(t) => t == tid
    case EnqueueEnd(t) => t == tid
    case _ => false
  }

  ghost predicate OfOthers<T>(steps: seq<Step<T>>, tid: nat) {
    forall i :: 0 <= i < |steps| ==> !IsOf(steps[i], tid)
  }

  lemma {:induction false} OthersLeaveIt<T>(s: State<T>, steps: seq<Step<T>>, tid: nat)
    requires OfOthers(steps, tid)
    ensures var s' := ActAll(s, steps);
      && (tid in s'.putting <==> tid in s.putting) && (tid in s.putting ==> s'.putting[tid] == s.putting[tid])
      && (tid in s'.ending <==> tid in s.ending)
  {
    if steps != [] {
      OthersLeaveIt(s, steps[..|steps| - 1], tid);
      assert !IsOf(steps[|steps| - 1], tid);
    }
  }

  // An item that passes the check is enqueued, and the end of a producer that sets the latch is,
  // whatever the others do in between; with the latch set neither passes.
  lemma PutsArrive<T>(s: State<T>, tid: nat, item: Item<T>, others: seq<Step<T>>)
    requires tid !in s.putting && tid !in s.ending && OfOthers(others, tid)
    ensures s.latch ==> Act(s, CheckPut(tid, item)) == s == Act(s, SetLatch(tid))
    ensures !s.latch ==>
      var before := ActAll(Act(s, CheckPut(tid, item)), others);
      Act(before, EnqueuePut(tid)).log == before.log + [item]
    ensures !s.latch ==>
      var before := ActAll(Act(s, SetLatch(tid)), others);
      Act(s, SetLatch(tid)).latch && Act(before, EnqueueEnd(tid)).log == before.log + [EndMessage]
  {
    OthersLeaveIt(Act(s, CheckPut(tid, item)), others, tid);
    OthersLeaveIt(Act(s, SetLatch(tid)), others, tid);
  }

  // While an iteration is under way and there is something to take, the consumer takes it: an
  // ordinary item is yielded, a final one ends the iteration; a new one can begin after that.
  lemma TakesNext<T>(s: State<T>)
    requires s.taken < |s.log|
    ensures !s.stopped && !IsFinalItem(s.log[s.taken]) ==>
      Act(s, Take) == s.(taken := s.taken + 1, yielded := s.yielded + [s.log[s.taken]])
    ensures !s.stopped && IsFinalItem(s.log[s.taken]) ==>
      Act(s, Take) == s.(taken := s.taken + 1, iterations := s.iterations + [s.yielded], yielded := [], stopped := true)
    ensures s.stopped ==> Act(s, Take) == s && !Act(s, Iterate).stopped && Act(s, Iterate).log == s.log
    ensures !Act(s, Reset).latch && Act(s, Reset).log == s.log
  {
  }

  /* ---------- what the consumer gets ---------- */

  // The iterations so far are the log taken so far, cut at its final items.
  ghost predicate Consumed<T>(s: State<T>) {
    s.taken <= |s.log| && s.iterations + [s.yielded] == Segments(s.log[..s.taken])
  }

  lemma SegmentsSnoc<T>(log: seq<Item<T>>, item: Item<T>)
    ensures var front := Segments(log);
      Segments(log + [item]) ==
        if IsFinalItem(item) then front + [[]] else front[|front| - 1 := front[|front| - 1] + [item]]
  {
    assert (log + [item])[..|log|] == log;
  }

  lemma LongerLog<T>(s: State<T>, item: Item<T>)
    requires s.taken <= |s.log|
    ensures (s.log + [item])[..s.taken] == s.log[..s.taken]
  {
  }

  lemma TakeConsumed<T>(s: State<T>)
    requires Consumed(s) && !s.stopped && s.taken < |s.log|
    ensures Consumed(Act(s, Take))
  {
    var front, item := s.log[..s.taken], s.log[s.taken];
    assert s.log[..s.taken + 1] == front + [item];
    SegmentsSnoc(front, item);
    LastReplaced(s.iterations, s.yielded, s.yielded + [item]);
  }

  lemma LastReplaced<U>(front: seq<U>, last: U, next: U)
    ensures (front + [last])[|front| := next] == front + [next]
  {
  }

  lemma ActConsumed<T>(s: State<T>, step: Step<T>)
    requires Consumed(s)
    ensures Consumed(Act(s, step))
  {
    match step
    case EnqueuePut(tid) => if tid in s.putting { LongerLog(s, s.putting[tid]); }
    case EnqueueEnd(tid) => LongerLog(s, EndMessage);
    case Take => if !s.stopped && s.taken < |s.log| { TakeConsumed(s); }
    case _ =>
  }

  lemma {:induction false} RunConsumed<T>(steps: seq<Step<T>>)
    ensures Consumed(Run(steps))
  {
    if steps == [] {
      assert Run(steps).log[..0] == [];
    } else {
      RunConsumed(steps[..|steps| - 1]);
      ActConsumed(Run(steps[..|steps| - 1]), steps[|steps| - 1]);
    }
  }

  // Pieces that are complete stay as they are; the last one grows.
  ghost predicate Extends<T>(longer: seq<seq<Item<T>>>, shorter: seq<seq<Item<T>>>) {
    && 0 < |shorter| <= |longer|
    && (forall k :: 0 <= k < |shorter| - 1 ==> longer[k] == shorter[k])
    && shorter[|shorter| - 1] <= longer[|shorter| - 1]
  }

  lemma {:induction false} SegmentsExtend<T>(log: seq<Item<T>>, n: nat)
    requires n <= |log|
    ensures Extends(Segments(log), Segments(log[..n]))
    decreases |log|
  {
    if n < |log| {
      var front := log[..|log| - 1];
      SegmentsExtend(front, n);
      assert front[..n] == log[..n];
    } else {
      assert log[..n] == log;
    }
  }

  // In every run, resets or not, the k-th iteration has produced exactly the k-th piece of the
  // log between final items, what was left behind the previous end included, and the present
  // one a prefix of the piece that is next.
  lemma EveryIteration<T>(steps: seq<Step<T>>)
    ensures var s := Run(steps);
      && |s.iterations| < |Segments(s.log)|
      && (forall k :: 0 <= k < |s.iterations| ==> s.iterations[k] == Segments(s.log)[k])
      && s.yielded <= Segments(s.log)[|s.iterations|]
  {
    var s := Run(steps);
    RunConsumed(steps);
    SegmentsExtend(s.log, s.taken);
    var all := s.iterations + [s.yielded];
    assert forall k :: 0 <= k < |s.iterations| ==> all[k] == s.iterations[k];
    assert all[|s.iterations|] == s.yielded;
  }

  lemma {:induction false} FirstSegment<T>(log: seq<Item<T>>)
    ensures Segments(log)[0] == BeforeEnd(log)
    ensures |Segments(log)| == 1 <==> BeforeEnd(log) == log
  {
    if log != [] {
      var front, last := log[..|log| - 1], log[|log| - 1];
      FirstSegment(front);
      assert log == front + [last];
      BeforeEndSnoc(front, last);
    }
  }

  /* ---------- what each epoch enqueues ---------- */

  // One setting of the latch, and one end for it and for every end an earlier epoch still owed.
  ghost predicate EpochEnds<T>(s: State<T>) {
    && s.start <= |s.log|
    && s.latches == (if s.latch then 1 else 0)
    && Ends(EpochPart(s)) + |s.ending| == s.carried + s.latches
  }

  // Once the latch is set, what is enqueued comes from producers that were past the check by then.
  ghost predicate EpochOrder<T>(s: State<T>) {
    var part := EpochPart(s);
    s.carried == 0 ==>
      && (s.latch ==> s.since + |s.putting| == s.pastCheck)
      && (s.latch ==> |part| - |BeforeEnd(part)| <= s.since + (1 - |s.ending|))
      && (!s.latch ==> BeforeEnd(part) == part && s.ending == {})
  }

  lemma {:induction false} BeforeEndSnoc<T>(log: seq<Item<T>>, item: Item<T>)
    ensures BeforeEnd(log + [item]) ==
      if |BeforeEnd(log)| == |log| && !IsFinalItem(item) then log + [item] else BeforeEnd(log)
  {
    if log == [] {
      assert log + [item] == [item] && [item][1..] == [];
    } else {
      assert (log + [item])[1..] == log[1..] + [item];
      BeforeEndSnoc(log[1..], item);
    }
  }

  lemma EndsSnoc<T>(log: seq<Item<T>>, item: Item<T>)
    ensures Ends(log + [item]) == Ends(log) + if item.EndMessage? then 1 else 0
  {
    assert (log + [item])[..|log|] == log;
  }

  lemma LongerPart<T>(s: State<T>, item: Item<T>)
    requires s.start <= |s.log|
    ensures (s.log + [item])[s.start..] == EpochPart(s) + [item]
  {
  }

  lemma EnqueuePutEpoch<T>(s: State<T>, tid: nat)
    requires EpochEnds(s) && EpochOrder(s) && OrdinaryState(s) && tid in s.putting
    ensures EpochEnds(Act(s, EnqueuePut(tid))) && EpochOrder(Act(s, EnqueuePut(tid)))
  {
    LongerPart(s, s.putting[tid]);
    EndsSnoc(EpochPart(s), s.putting[tid]);
    assert (s.putting - {tid}).Keys == s.putting.Keys - {tid};
    BeforeEndSnoc(EpochPart(s), s.putting[tid]);
  }

  lemma EnqueueEndEpoch<T>(s: State<T>, tid: nat)
    requires EpochEnds(s) && EpochOrder(s) && tid in s.ending
    ensures EpochEnds(Act(s, EnqueueEnd(tid))) && EpochOrder(Act(s, EnqueueEnd(tid)))
  {
    LongerPart(s, EndMessage);
    EndsSnoc(EpochPart(s), EndMessage);
    BeforeEndSnoc(EpochPart(s), EndMessage);
  }

  lemma CheckPutEpoch<T>(s: State<T>, tid: nat, item: Item<T>)
    requires EpochEnds(s) && EpochOrder(s)
    ensures EpochEnds(Act(s, CheckPut(tid, item))) && EpochOrder(Act(s, CheckPut(tid, item)))
  {
    assert EpochPart(Act(s, CheckPut(tid, item))) == EpochPart(s);
  }

  lemma SetLatchEpoch<T>(s: State<T>, tid: nat)
    requires EpochEnds(s) && EpochOrder(s)
    ensures EpochEnds(Act(s, SetLatch(tid))) && EpochOrder(Act(s, SetLatch(tid)))
  {
    assert EpochPart(Act(s, SetLatch(tid))) == EpochPart(s);
  }

  lemma ResetEpoch<T>(s: State<T>)
    ensures EpochEnds(Act(s, Reset)) && EpochOrder(Act(s, Reset))
  {
    assert EpochPart(Act(s, Reset)) == [];
    assert |s.ending| == 0 ==> s.ending == {};
  }

  // The consumer's steps, and steps of producers that are elsewhere, touch nothing of this.
  lemma OthersEpoch<T>(s: State<T>, s': State<T>)
    requires EpochEnds(s) && EpochOrder(s)
    requires s' == s.(taken := s'.taken, iterations := s'.iterations, yielded := s'.yielded, stopped := s'.stopped)
    ensures EpochEnds(s') && EpochOrder(s')
  {
    assert EpochPart(s') == EpochPart(s);
  }

  lemma ActOrdinary<T>(s: State<T>, step: Step<T>)
    requires OrdinaryState(s)
    requires step.CheckPut? ==> Ordinary(step.item)
    ensures OrdinaryState(Act(s, step))
  {
  }

  lemma ActEpoch<T>(s: State<T>, step: Step<T>)
    requires EpochEnds(s) && EpochOrder(s) && OrdinaryState(s)
    ensures EpochEnds(Act(s, step)) && EpochOrder(Act(s, step))
  {
    match step
    case EnqueuePut(tid) => if tid in s.putting { EnqueuePutEpoch(s, tid); } else { OthersEpoch(s, s); }
    case EnqueueEnd(tid) => if tid in s.ending { EnqueueEndEpoch(s, tid); } else { OthersEpoch(s, s); }
    case CheckPut(tid, item) => CheckPutEpoch(s, tid, item);
    case SetLatch(tid) => SetLatchEpoch(s, tid);
    case Reset => ResetEpoch(s);
    case _ => OthersEpoch(s, Act(s, step));
  }

  lemma {:induction false} RunEpoch<T>(steps: seq<Step<T>>)
    requires OrdinaryRun(steps)
    ensures EpochEnds(Run(steps)) && EpochOrder(Run(steps)) && OrdinaryState(Run(steps))
  {
    if steps != [] {
      var front := steps[..|steps| - 1];
      RunEpoch(front);
      assert steps[|steps| - 1].CheckPut? ==> Ordinary(steps[|steps| - 1].item);
      ActEpoch(Run(front), steps[|steps| - 1]);
      ActOrdinary(Run(front), steps[|steps| - 1]);
    }
  }

  // In every run and so in each of its epochs, with ordinary items carrying no end key: the latch
  // is set at most once, and no end is enqueued but its own and those earlier epochs still owed.
  // In an epoch that was opened when none was owed there is at most one end, and behind it lie no
  // more items than producers were past the check when the latch was set.
  lemma EveryEpoch<T>(steps: seq<Step<T>>)
    requires OrdinaryRun(steps)
    ensures var s := Run(steps);
      && s.latches <= 1
      && Ends(EpochPart(s)) <= s.carried + 1
      && (s.carried == 0 ==> Ends(EpochPart(s)) <= 1 && Behind(EpochPart(s)) <= s.pastCheck)
  {
    RunEpoch(steps);
  }

  // An epoch whose ends have all been enqueued has exactly the one that belongs to it exactly
  // when none was owed as it was opened.
  lemma OneEndExactly<T>(steps: seq<Step<T>>)
    requires OrdinaryRun(steps) && Run(steps).latch && Run(steps).ending == {}
    ensures Ends(EpochPart(Run(steps))) == 1 <==> Run(steps).carried == 0
  {
    RunEpoch(steps);
  }

  // Resets that wait for the end to be enqueued never owe one.
  ghost predicate PatientResets<T>(steps: seq<Step<T>>) {
    steps == [] ||
    (PatientResets(steps[..|steps| - 1]) &&
     (steps[|steps| - 1].Reset? ==> Run(steps[..|steps| - 1]).ending == {}))
  }

  lemma {:induction false} PatientOwesNothing<T>(steps: seq<Step<T>>)
    requires PatientResets(steps)
    ensures Run(steps).carried == 0
  {
    if steps != [] {
      PatientOwesNothing(steps[..|steps| - 1]);
    }
  }

  // For every run whose resets are patient: at most one end in each epoch, and so on.
  lemma EveryPatientEpoch<T>(steps: seq<Step<T>>)
    requires OrdinaryRun(steps) && PatientResets(steps)
    ensures var s := Run(steps);
      && s.latches <= 1
      && Ends(EpochPart(s)) <= 1
      && Behind(EpochPart(s)) <= s.pastCheck
  {
    EveryEpoch(steps);
    PatientOwesNothing(steps);
  }

  lemma RunSnoc<T>(steps: seq<Step<T>>, step: Step<T>)
    ensures Run(steps + [step]) == Act(Run(steps), step)
  {
    assert (steps + [step])[..|steps|] == steps;
  }

  // A reset that overtakes an end makes two in the next epoch.
  lemma ResetOvertakesEnd<T>() returns (steps: seq<Step<T>>)
    ensures OrdinaryRun(steps) && EpochPart(Run(steps)) == [EndMessage, EndMessage]
  {
    RunSnoc<T>([], SetLatch(0));
    var a: seq<Step<T>> := [] + [SetLatch(0)];
    RunSnoc(a, Reset);
    var b := a + [Reset];
    RunSnoc(b, EnqueueEnd(0));
    var c := b + [EnqueueEnd(0)];
    assert Run(c).log == [EndMessage] && Run(c).ending == {} && Run(c).start == 0;
    RunSnoc(c, SetLatch(0));
    var d := c + [SetLatch(0)];
    RunSnoc(d, EnqueueEnd(0));
    steps := d + [EnqueueEnd(0)];
  }
}
