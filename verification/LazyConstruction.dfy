// Double-checked construction: get_service and reset_service of a service provider
// (async_agent_service_provider.py), and get_executor_pool (server_context.py), which is the
// same without a reset.
module LazyConstruction {
  import opened PyDicts

  /* ---------- one caller at a time ---------- */

  // Instances are numbered in the order they are constructed.
  class AsyncAgentServiceProvider {
    var serviceInstance: Option<nat>
    var constructed: nat
    ghost var resets: nat

    ghost predicate Valid()
      reads this
    {
      && constructed <= resets + 1
      && (serviceInstance.None? ==> constructed <= resets)
      && (serviceInstance.Some? ==> serviceInstance.value + 1 == constructed)
    }

    constructor ()
      ensures Valid() && serviceInstance == None && constructed == 0 && resets == 0
    {
      serviceInstance, constructed, resets := None, 0, 0;
    }

    method GetService() returns (service: nat)
      requires Valid()
      modifies this
      ensures Valid() && serviceInstance == Some(service) && resets == old(resets)
      ensures old(serviceInstance).Some? ==> service == old(serviceInstance).value && constructed == old(constructed)
      ensures old(serviceInstance).None? ==> service == old(constructed) && constructed == old(constructed) + 1
    {
      if serviceInstance.None? {
        if serviceInstance.None? {
          serviceInstance := Some(constructed);
          constructed := constructed + 1;
        }
      }
      service := serviceInstance.value;
    }

    method ResetService()
      requires Valid()
      modifies this
      ensures Valid() && serviceInstance == None && constructed == old(constructed) && resets == old(resets) + 1
    {
      serviceInstance := None;
      resets := resets + 1;
    }
  }

  /* ---------- any number of threads ---------- */

  // Where a thread stands.  `since` is the number of resets done when the thread last knew
  // that there was an instance.
  datatype Place =
    | Idle
    | SawNothing             // the first, unlocked check failed; waiting for the lock
    | Holding                // has the lock, about to check again
    | Constructing           // the second check failed too
    | Assigning(built: nat)
    | Leaving(since: nat)    // about to release the lock
    | Reading(since: nat)    // about to read the field once more, unlocked, and return it
    | WantsReset
    | Resetting
    | LeavingReset

  // What one call returned, the resets it had seen at its check, and at its return the resets
  // done, the instances constructed before the last of them and the assignments after it.
  datatype Answer = Answer(value: Option<nat>, since: nat, resets: nat, dropped: nat, assignments: nat)

  datatype State = State(
    instance: Option<nat>,
    lock: Option<nat>,
    places: map<nat, Place>,
    constructed: nat,
    resets: nat,
    dropped: nat,            // how many instances had been constructed at the last reset
    assignments: nat,        // how often one has been assigned since
    answers: seq<Answer>)

  datatype Action = Get | Reset | Go

  function Begin(): State {
    State(None, None, map[], 0, 0, 0, 0, [])
  }

  function PlaceOf(s: State, tid: nat): Place {
    if tid in s.places then s.places[tid] else Idle
  }

  function At(s: State, tid: nat, p: Place): State {
    s.(places := s.places[tid := p])
  }

  function Act(s: State, tid: nat, a: Action): State {
    match PlaceOf(s, tid)
    case Idle =>
      (match a
       case Get => At(s, tid, if s.instance.None? then SawNothing else Reading(s.resets))
       case Reset => At(s, tid, WantsReset)
       case Go => s)
    case SawNothing => if s.lock.None? then At(s.(lock := Some(tid)), tid, Holding) else s
    case Holding => At(s, tid, if s.instance.None? then Constructing else Leaving(s.resets))
    case Constructing => At(s.(constructed := s.constructed + 1), tid, Assigning(s.constructed))
    case Assigning(built) => At(s.(instance := Some(built), assignments := s.assignments + 1), tid, Leaving(s.resets))
    case Leaving(since) => At(s.(lock := None), tid, Reading(since))
    case Reading(since) =>
      At(s.(answers := s.answers + [Answer(s.instance, since, s.resets, s.dropped, s.assignments)]), tid, Idle)
    case WantsReset => if s.lock.None? then At(s.(lock := Some(tid)), tid, Resetting) else s
    case Resetting =>
      At(s.(instance := None, resets := s.resets + 1, dropped := s.constructed, assignments := 0), tid, LeavingReset)
    case LeavingReset => At(s.(lock := None), tid, Idle)
  }

  function Run(schedule: seq<(nat, Action)>): State {
    if schedule == [] then Begin()
    else
      var (tid, a) := schedule[|schedule| - 1];
      Act(Run(schedule[..|schedule| - 1]), tid, a)
  }

  predicate Inside(p: Place) {
    p.Holding? || p.Constructing? || p.Assigning? || p.Leaving? || p.Resetting? || p.LeavingReset?
  }

  // What is known of the thread with the lock, and of the field while it is in there.
  predicate HolderOk(s: State, p: Place) {
    match p
    case Constructing => s.instance.None?
    case Assigning(built) => s.instance.None? && built + 1 == s.constructed && built >= s.dropped
    case Leaving(since) => since == s.resets && s.instance.Some?
    case _ => true
  }

  // An instance made and not yet assigned counts like one in the field.
  predicate Made(s: State) {
    s.instance.Some? || (s.lock.Some? && PlaceOf(s, s.lock.value).Assigning?)
  }

  predicate AnswerOk(a: Answer, resets: nat) {
    && a.since <= a.resets <= resets
    && (a.value.None? <==> a.assignments == 0)
    && (a.value.None? ==> a.since < a.resets)
    && (a.value.Some? ==> a.dropped <= a.value.value <= a.resets)
  }

  predicate PlaceOk(s: State, tid: nat) {
    var p := PlaceOf(s, tid);
    && (Inside(p) ==> s.lock == Some(tid))
    && (p.Reading? ==> p.since <= s.resets && (p.since == s.resets ==> s.instance.Some?))
  }

  ghost predicate PlacesOk(s: State) {
    forall tid :: PlaceOk(s, tid)
  }

  predicate LockOk(s: State) {
    s.lock.Some? ==> Inside(PlaceOf(s, s.lock.value)) && HolderOk(s, PlaceOf(s, s.lock.value))
  }

  predicate CountsOk(s: State) {
    && s.dropped <= s.constructed <= s.resets + (if Made(s) then 1 else 0)
    && (s.instance.None? <==> s.assignments == 0)
    && (s.instance.Some? ==> s.instance.value + 1 == s.constructed && s.dropped <= s.instance.value)
  }

  ghost predicate AnswersOk(s: State) {
    forall i :: 0 <= i < |s.answers| ==> AnswerOk(s.answers[i], s.resets)
  }

  ghost predicate Safe(s: State) {
    PlacesOk(s) && LockOk(s) && CountsOk(s) && AnswersOk(s)
  }

  lemma OthersStay(s: State, tid: nat, a: Action, other: nat)
    requires other != tid
    ensures PlaceOf(Act(s, tid, a), other) == PlaceOf(s, other)
  {
  }

  lemma ActPlaces(s: State, tid: nat, a: Action, other: nat)
    requires PlacesOk(s) && LockOk(s)
    ensures PlaceOk(Act(s, tid, a), other)
  {
    assert PlaceOk(s, tid) && PlaceOk(s, other);
    if other != tid {
      OthersStay(s, tid, a, other);
    }
  }

  lemma ActLock(s: State, tid: nat, a: Action)
    requires PlacesOk(s) && LockOk(s) && CountsOk(s)
    ensures LockOk(Act(s, tid, a))
  {
    assert PlaceOk(s, tid);
    if s.lock.Some? && s.lock.value != tid {
      OthersStay(s, tid, a, s.lock.value);
    }
  }

  lemma ActCounts(s: State, tid: nat, a: Action)
    requires PlacesOk(s) && LockOk(s) && CountsOk(s)
    ensures CountsOk(Act(s, tid, a))
  {
    assert PlaceOk(s, tid);
    if s.lock.Some? && s.lock.value != tid {
      OthersStay(s, tid, a, s.lock.value);
    }
  }

  lemma ActAnswers(s: State, tid: nat, a: Action)
    requires Safe(s)
    ensures AnswersOk(Act(s, tid, a))
  {
    assert PlaceOk(s, tid);
  }

  lemma ActSafe(s: State, tid: nat, a: Action)
    requires Safe(s)
    ensures Safe(Act(s, tid, a))
  {
    forall other
      ensures PlaceOk(Act(s, tid, a), other)
    {
      ActPlaces(s, tid, a, other);
    }
    ActLock(s, tid, a);
    ActCounts(s, tid, a);
    ActAnswers(s, tid, a);
  }

  // In every interleaving: at most one construction more than there were resets; a call returns
  // nothing exactly when nothing was assigned between the last reset and its last read, and then
  // that reset came after its check; an instance dropped by a reset is never returned after it.
  lemma {:induction false} EveryInterleavingSafe(schedule: seq<(nat, Action)>)
    ensures Safe(Run(schedule)) && Run(schedule).constructed <= Run(schedule).resets + 1
  {
    if schedule != [] {
      EveryInterleavingSafe(schedule[..|schedule| - 1]);
      ActSafe(Run(schedule[..|schedule| - 1]), schedule[|schedule| - 1].0, schedule[|schedule| - 1].1);
    }
  }

  ghost predicate NoReset(schedule: seq<(nat, Action)>) {
    forall i :: 0 <= i < |schedule| ==> schedule[i].1 != Reset
  }

  // Without a reset: one instance is ever made, and every caller gets that one.
  lemma {:induction false} OnePool(schedule: seq<(nat, Action)>)
    requires NoReset(schedule)
    ensures Run(schedule).constructed <= 1
    ensures forall i :: 0 <= i < |Run(schedule).answers| ==> Run(schedule).answers[i].value == Some(0)
  {
    EveryInterleavingSafe(schedule);
    NothingReset(schedule);
    var s := Run(schedule);
    forall i | 0 <= i < |s.answers|
      ensures s.answers[i].value == Some(0)
    {
      assert AnswerOk(s.answers[i], 0);
    }
  }

  lemma {:induction false} NothingReset(schedule: seq<(nat, Action)>)
    requires NoReset(schedule)
    ensures Run(schedule).resets == 0
    ensures forall tid :: tid in Run(schedule).places ==>
      !Run(schedule).places[tid].WantsReset? && !Run(schedule).places[tid].Resetting?
  {
    if schedule != [] {
      NothingReset(schedule[..|schedule| - 1]);
    }
  }

  /* ---------- one caller among others that stand still ---------- */

  function Steps(s: State, tid: nat, n: nat): State {
    if n == 0 then s else Act(Steps(s, tid, n - 1), tid, Go)
  }

  // With an instance there, a call returns it at once, without the lock.
  lemma PresentIsReturned(s: State, tid: nat)
    requires PlaceOf(s, tid).Idle? && s.instance.Some?
    ensures var s' := Steps(Act(s, tid, Get), tid, 1);
      && |s'.answers| == |s.answers| + 1 && s'.answers[|s.answers|].value == s.instance
      && s'.instance == s.instance && s'.constructed == s.constructed && s'.lock == s.lock && PlaceOf(s', tid).Idle?
  {
  }

  // Without one, a caller that meets no other constructs the next one, keeps it and returns it.
  lemma AbsentIsConstructed(s: State, tid: nat)
    requires PlaceOf(s, tid).Idle? && s.instance.None? && s.lock.None?
    ensures var s' := Steps(Act(s, tid, Get), tid, 6);
      && |s'.answers| == |s.answers| + 1 && s'.answers[|s.answers|].value == Some(s.constructed)
      && s'.instance == Some(s.constructed) && s'.constructed == s.constructed + 1
      && s'.lock.None? && PlaceOf(s', tid).Idle?
  {
    var s1 := Act(s, tid, Get);
    var s3 := Steps(s1, tid, 2);
    assert Steps(s1, tid, 1) == Act(s1, tid, Go);
    assert PlaceOf(s3, tid).Constructing?;
    var s5 := Steps(s1, tid, 4);
    assert Steps(s1, tid, 3) == Act(s3, tid, Go);
    assert PlaceOf(s5, tid).Leaving? && s5.instance == Some(s.constructed);
    assert Steps(s1, tid, 5) == Act(s5, tid, Go);
  }

  // A caller that waited for the lock while another constructed one takes that one.
  lemma SecondCheckFinds(s: State, tid: nat)
    requires PlaceOf(s, tid).SawNothing? && s.instance.Some? && s.lock.None?
    ensures var s' := Steps(s, tid, 4);
      && |s'.answers| == |s.answers| + 1 && s'.answers[|s.answers|].value == s.instance
      && s'.instance == s.instance && s'.constructed == s.constructed && s'.lock.None? && PlaceOf(s', tid).Idle?
  {
    assert Steps(s, tid, 1) == Act(s, tid, Go);
    assert Steps(s, tid, 2) == Act(Steps(s, tid, 1), tid, Go);
    assert PlaceOf(Steps(s, tid, 2), tid).Leaving?;
    assert Steps(s, tid, 3) == Act(Steps(s, tid, 2), tid, Go);
  }

  lemma RunSnoc(schedule: seq<(nat, Action)>, tid: nat, a: Action)
    ensures Run(schedule + [(tid, a)]) == Act(Run(schedule), tid, a)
  {
    assert (schedule + [(tid, a)])[..|schedule|] == schedule;
  }

  // With one: a caller that has just made the instance can still return nothing.
  lemma NothingReturned()
    ensures exists schedule: seq<(nat, Action)> :: Run(schedule).answers == [Answer(None, 0, 1, 1, 0)]
  {
    var f := OneMade();
    RunSnoc(f, 1, Reset);
    var g := f + [(1, Reset)];
    RunSnoc(g, 1, Go);
    var h := g + [(1, Go)];
    RunSnoc(h, 1, Go);
    var i := h + [(1, Go)];
    assert Run(i) == State(None, Some(1), map[0 := Reading(0), 1 := LeavingReset], 1, 1, 1, 0, []);
    RunSnoc(i, 0, Go);
    assert Run(i + [(0, Go)]).answers == [] + [Answer(None, 0, 1, 1, 0)];
  }

  // One caller makes the instance and is about to return it.
  lemma OneMade() returns (f: seq<(nat, Action)>)
    ensures Run(f) == State(Some(0), None, map[0 := Reading(0)], 1, 0, 0, 1, [])
  {
    var c := OneMaking();
    RunSnoc(c, 0, Go);
    var d := c + [(0, Go)];
    assert Run(d) == State(None, Some(0), map[0 := Assigning(0)], 1, 0, 0, 0, []);
    RunSnoc(d, 0, Go);
    var e := d + [(0, Go)];
    assert Run(e) == State(Some(0), Some(0), map[0 := Leaving(0)], 1, 0, 0, 1, []);
    RunSnoc(e, 0, Go);
    f := e + [(0, Go)];
  }

  lemma OneMaking() returns (c: seq<(nat, Action)>)
    ensures Run(c) == State(None, Some(0), map[0 := Constructing], 0, 0, 0, 0, [])
  {
    RunSnoc([], 0, Get);
    var a := [] + [(0, Get)];
    assert Run(a) == State(None, None, map[0 := SawNothing], 0, 0, 0, 0, []);
    RunSnoc(a, 0, Go);
    var b := a + [(0, Go)];
    assert Run(b) == State(None, Some(0), map[0 := Holding], 0, 0, 0, 0, []);
    RunSnoc(b, 0, Go);
    c := b + [(0, Go)];
  }
}
