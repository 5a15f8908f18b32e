// One exchange of a chat session: the journal filters messages on to the queue, and whichever
// path run_it takes, the consumer gets exactly one final answer and then the end
// (data_driven_chat_session.py, message_journal.py).
module ChatSession {
  import opened PyDicts
  import opened CollatingQueue

  // What the filters look at, and the text.  An AgentFrameworkMessage always has a chat context,
  // for its constructor puts an empty one where none is given.
  datatype Message = Message(isFramework: bool, hasChatContext: bool, content: string)

  function FrameworkMessage(content: string): Message {
    Message(true, true, content)
  }

  datatype Filter = Minimal | Maximal

  // The maximal filter lets every non-empty dictionary through, and every message has a type.
  predicate Allows(filter: Filter, m: Message) {
    filter.Maximal? || (m.isFramework && m.hasChatContext)
  }

  // A journal's filter and its optional processor, which may change the message.
  datatype Policy = Policy(filter: Filter, processor: Option<Message -> Message>)

  function Outgoing(p: Policy, m: Message): seq<Item<Message>> {
    if !Allows(p.filter, m) then []
    else [Item(if p.processor.Some? then p.processor.value(m) else m, false)]
  }

  function AllOutgoing(p: Policy, ms: seq<Message>): seq<Item<Message>> {
    if ms == [] then [] else AllOutgoing(p, ms[..|ms| - 1]) + Outgoing(p, ms[|ms| - 1])
  }

  /* ---------- what a call does to the queue ---------- */

  // The queue, whether its end was sent, and whether the session sent its last message.
  datatype Sink = Sink(queue: seq<Item<Message>>, ended: bool, finalized: bool)

  datatype Call = Write(message: Message) | Finalize(message: Message)

  function Called(p: Policy, k: Sink, call: Call): Sink {
    var written := if k.ended then k.queue else k.queue + Outgoing(p, call.message);
    match call
    case Write(_) => k.(queue := written)
    case Finalize(_) =>
      if k.finalized then k else Sink(if k.ended then written else written + [EndMessage], true, true)
  }

  function AllCalled(p: Policy, k: Sink, calls: seq<Call>): Sink {
    if calls == [] then k else Called(p, AllCalled(p, k, calls[..|calls| - 1]), calls[|calls| - 1])
  }

  class MessageJournal {
    const hopper: AsyncCollatingQueue<Message>
    const policy: Policy

    constructor (hopper: AsyncCollatingQueue<Message>, policy: Policy)
      ensures this.hopper == hopper && this.policy == policy
    {
      this.hopper, this.policy := hopper, policy;
    }

    method WriteMessage(m: Message)
      modifies hopper`queue
      ensures hopper.queue == if hopper.lastItemSent then old(hopper.queue) else old(hopper.queue) + Outgoing(policy, m)
      ensures hopper.lastItemSent || (policy.filter.Minimal? && !(m.isFramework && m.hasChatContext)) ==>
        hopper.queue == old(hopper.queue)
      ensures !hopper.lastItemSent && (policy.filter.Maximal? || (m.isFramework && m.hasChatContext)) ==>
        hopper.queue == old(hopper.queue) +
          [Item(if policy.processor.Some? then policy.processor.value(m) else m, false)]
      ensures hopper.queue == Called(policy, Sink(old(hopper.queue), hopper.lastItemSent, false), Write(m)).queue
    {
      if !Allows(policy.filter, m) {
        assert hopper.queue + [] == hopper.queue;
        return;
      }
      var message := m;
      if policy.processor.Some? {
        message := policy.processor.value(m);
      }
      hopper.Put(Item(message, false), true);
    }

    // Whatever the agents write, in order.
    method WriteAll(ms: seq<Message>)
      modifies hopper`queue
      ensures hopper.queue == if hopper.lastItemSent then old(hopper.queue) else old(hopper.queue) + AllOutgoing(policy, ms)
    {
      for i := 0 to |ms|
        invariant hopper.queue ==
          if hopper.lastItemSent then old(hopper.queue) else old(hopper.queue) + AllOutgoing(policy, ms[..i])
      {
        WriteMessage(ms[i]);
        assert ms[..i + 1][..i] == ms[..i];
        Regroup(old(hopper.queue), AllOutgoing(policy, ms[..i]), Outgoing(policy, ms[i]));
      }
      assert ms[..|ms|] == ms;
    }
  }

  // How set_up() and the chat behave: what they write meanwhile, whether set_up() raises
  // ValueError, and the answer found in the end, if any.
  datatype Behaviour = Behaviour(
    setUpWrites: seq<Message>,
    setUpError: Option<string>,
    chatWrites: seq<Message>,
    answer: Option<string>)

  const ACKNOWLEDGED := FrameworkMessage("Event acknowledged")

  /* ---------- what the consumer is to get ---------- */

  // What precedes the final message, and the final message itself.
  function Preceding(isEvent: bool, needsSetUp: bool, b: Behaviour): seq<Message> {
    if isEvent then []
    else if !needsSetUp then b.chatWrites
    else if b.setUpError.Some? then b.setUpWrites
    else b.setUpWrites + b.chatWrites
  }

  function FinalMessage(isEvent: bool, needsSetUp: bool, b: Behaviour): Message {
    if isEvent then ACKNOWLEDGED
    else if needsSetUp && b.setUpError.Some? then FrameworkMessage(b.setUpError.value)
    else FrameworkMessage(if b.answer.Some? then b.answer.value else "")
  }

  function StreamOf(p: Policy, isEvent: bool, needsSetUp: bool, b: Behaviour): seq<Item<Message>> {
    AllOutgoing(p, Preceding(isEvent, needsSetUp, b)) +
    Outgoing(p, FinalMessage(isEvent, needsSetUp, b)) + [EndMessage]
  }

  class DataDrivenChatSession {
    const journal: MessageJournal
    const isEvent: bool
    var frontManReady: bool
    var lastMessageSent: bool

    constructor (journal: MessageJournal, isEvent: bool)
      ensures this.journal == journal && this.isEvent == isEvent && !frontManReady && !lastMessageSent
    {
      this.journal, this.isEvent := journal, isEvent;
      frontManReady, lastMessageSent := false, false;
    }

    ghost function Now(): Sink
      reads this, journal, journal.hopper
    {
      Sink(journal.hopper.queue, journal.hopper.lastItemSent, lastMessageSent)
    }

    // Only the first call says anything.
    method FinalizeRequest(m: Message)
      modifies this`lastMessageSent, journal.hopper`queue, journal.hopper`lastItemSent
      ensures Now() == Called(journal.policy, old(Now()), Finalize(m))
      ensures lastMessageSent
      ensures old(lastMessageSent) ==>
        journal.hopper.queue == old(journal.hopper.queue) && journal.hopper.lastItemSent == old(journal.hopper.lastItemSent)
      ensures !old(lastMessageSent) ==> journal.hopper.lastItemSent
      ensures !old(lastMessageSent) && !old(journal.hopper.lastItemSent) ==>
        journal.hopper.queue == old(journal.hopper.queue) + (Outgoing(journal.policy, m) + [EndMessage])
    {
      if lastMessageSent {
        return;
      }
      lastMessageSent := true;
      journal.WriteMessage(m);
      journal.hopper.PutFinalItem();
      Regroup(old(journal.hopper.queue), Outgoing(journal.policy, m), [EndMessage]);
    }

    // On every returning path: what the agents wrote, one final message, the end, and then nothing.
    method RunIt(b: Behaviour)
      requires !lastMessageSent && !journal.hopper.lastItemSent
      modifies this`lastMessageSent, this`frontManReady, journal.hopper`queue, journal.hopper`lastItemSent
      ensures lastMessageSent && journal.hopper.lastItemSent
      ensures journal.hopper.queue ==
        old(journal.hopper.queue) + StreamOf(journal.policy, isEvent, !old(frontManReady), b)
      ensures frontManReady == (old(frontManReady) || b.setUpError.None?)
    {
      ghost var start := journal.hopper.queue;
      ghost var needsSetUp := !frontManReady;
      if isEvent {
        FinalizeRequest(ACKNOWLEDGED);
        assert [] + Outgoing(journal.policy, ACKNOWLEDGED) == Outgoing(journal.policy, ACKNOWLEDGED);
      }
      if !frontManReady {
        journal.WriteAll(b.setUpWrites);
        if b.setUpError.Some? {
          FinalizeRequest(FrameworkMessage(b.setUpError.value));
          Regroup3(start, AllOutgoing(journal.policy, b.setUpWrites),
                   Outgoing(journal.policy, FrameworkMessage(b.setUpError.value)), [EndMessage]);
          return;
        }
        frontManReady := true;
      }
      journal.WriteAll(b.chatWrites);
      OutgoingAppend(journal.policy, b.setUpWrites, b.chatWrites);
      ghost var written := AllOutgoing(journal.policy, Preceding(isEvent, needsSetUp, b));
      Regroup(start, AllOutgoing(journal.policy, b.setUpWrites), AllOutgoing(journal.policy, b.chatWrites));
      var answer := if b.answer.Some? then b.answer.value else "";
      FinalizeRequest(FrameworkMessage(answer));
      Regroup3(start, written, Outgoing(journal.policy, FrameworkMessage(answer)), [EndMessage]);
    }
  }

  lemma Regroup3<T>(a: seq<T>, b: seq<T>, c: seq<T>, d: seq<T>)
    ensures a + b + (c + d) == a + (b + c + d)
  {
  }

  lemma {:induction false} OutgoingAppend(p: Policy, a: seq<Message>, b: seq<Message>)
    ensures AllOutgoing(p, a + b) == AllOutgoing(p, a) + AllOutgoing(p, b)
  {
    if b == [] {
      assert a + b == a;
      assert AllOutgoing(p, a) + [] == AllOutgoing(p, a);
    } else {
      assert (a + b)[..|a + b| - 1] == a + b[..|b| - 1];
      OutgoingAppend(p, a, b[..|b| - 1]);
      Regroup(AllOutgoing(p, a), AllOutgoing(p, b[..|b| - 1]), Outgoing(p, b[|b| - 1]));
    }
  }

  /* ---------- what the stream promises ---------- */

  lemma {:induction false} NothingFinalBefore(p: Policy, ms: seq<Message>)
    ensures forall i :: 0 <= i < |AllOutgoing(p, ms)| ==> !IsFinalItem(AllOutgoing(p, ms)[i])
    ensures |AllOutgoing(p, ms)| <= |ms|
  {
    if ms != [] {
      NothingFinalBefore(p, ms[..|ms| - 1]);
    }
  }

  lemma {:induction false} AllBefore(front: seq<Item<Message>>, rest: seq<Item<Message>>)
    requires forall i :: 0 <= i < |front| ==> !IsFinalItem(front[i])
    requires rest != [] && IsFinalItem(rest[0])
    ensures BeforeEnd(front + rest) == front
  {
    if front == [] {
      assert front + rest == rest;
    } else {
      assert (front + rest)[1..] == front[1..] + rest;
      AllBefore(front[1..], rest);
    }
  }

  // Path by path.  An event is told so, and nothing that is written meanwhile precedes it.
  lemma EventSays(p: Policy, needsSetUp: bool, b: Behaviour)
    ensures var m := Message(true, true, "Event acknowledged");
      StreamOf(p, true, needsSetUp, b) ==
        [Item(if p.processor.Some? then p.processor.value(m) else m, false), EndMessage]
  {
  }

  // A set-up that raises says so behind what it wrote.
  lemma FailureSays(p: Policy, b: Behaviour)
    requires b.setUpError.Some?
    ensures var m := Message(true, true, b.setUpError.value);
      StreamOf(p, false, true, b) == AllOutgoing(p, b.setUpWrites) +
        [Item(if p.processor.Some? then p.processor.value(m) else m, false), EndMessage]
  {
    Together(AllOutgoing(p, b.setUpWrites), Outgoing(p, FrameworkMessage(b.setUpError.value))[0], EndMessage);
  }

  // Otherwise it is the answer, or the empty text where there is none, behind what the set-up,
  // where one was needed, and the chat wrote.
  lemma AnswerSays(p: Policy, needsSetUp: bool, b: Behaviour)
    requires needsSetUp ==> b.setUpError.None?
    ensures var m := Message(true, true, if b.answer.Some? then b.answer.value else "");
      StreamOf(p, false, needsSetUp, b) ==
        (if needsSetUp then AllOutgoing(p, b.setUpWrites) else []) + AllOutgoing(p, b.chatWrites) +
        [Item(if p.processor.Some? then p.processor.value(m) else m, false), EndMessage]
  {
    var written := AllOutgoing(p, Preceding(false, needsSetUp, b));
    OutgoingAppend(p, b.setUpWrites, b.chatWrites);
    assert [] + AllOutgoing(p, b.chatWrites) == AllOutgoing(p, b.chatWrites);
    Together(written, Outgoing(p, FinalMessage(false, needsSetUp, b))[0], EndMessage);
  }

  lemma Together<T>(a: seq<T>, x: T, y: T)
    ensures a + [x] + [y] == a + [x, y]
  {
  }

  // What the filter lets through is what the queue gets, message by message.
  lemma {:induction false} WrittenInOrder(p: Policy, ms: seq<Message>, k: nat)
    requires k < |ms|
    ensures AllOutgoing(p, ms) == AllOutgoing(p, ms[..k]) + AllOutgoing(p, [ms[k]]) + AllOutgoing(p, ms[k + 1..])
    ensures var m := ms[k];
      AllOutgoing(p, [m]) ==
        if p.filter.Maximal? || (m.isFramework && m.hasChatContext)
        then [Item(if p.processor.Some? then p.processor.value(m) else m, false)] else []
  {
    assert [ms[k]][..0] == [];
    OutgoingAppend(p, ms[..k], [ms[k]]);
    OutgoingAppend(p, ms[..k] + [ms[k]], ms[k + 1..]);
    assert ms == ms[..k] + [ms[k]] + ms[k + 1..];
  }

  // Under either filter the final message gets through; a consumer of the stream yields what was
  // let through of the agents' messages and then exactly that one, and the end message is the last
  // thing on the queue.
  lemma OneFinalAnswer(p: Policy, isEvent: bool, needsSetUp: bool, b: Behaviour)
    ensures var stream, final := StreamOf(p, isEvent, needsSetUp, b), FinalMessage(isEvent, needsSetUp, b);
      var sent := if p.processor.Some? then p.processor.value(final) else final;
      && BeforeEnd(stream) == AllOutgoing(p, Preceding(isEvent, needsSetUp, b)) + [Item(sent, false)]
      && |stream| == |BeforeEnd(stream)| + 1
      && stream[|stream| - 1] == EndMessage
  {
    var written := AllOutgoing(p, Preceding(isEvent, needsSetUp, b));
    var last := Outgoing(p, FinalMessage(isEvent, needsSetUp, b));
    NothingFinalBefore(p, Preceding(isEvent, needsSetUp, b));
    AllBefore(written + last, [EndMessage]);
  }

  /* ---------- any sequence of calls ---------- */

  // What was written before the first finalization, and what that one said.
  function Said(calls: seq<Call>): (seq<Message>, Option<Message>) {
    if calls == [] then ([], None)
    else
      var (written, final) := Said(calls[..|calls| - 1]);
      var last := calls[|calls| - 1];
      if final.Some? then (written, final)
      else if last.Write? then (written + [last.message], None)
      else (written, Some(last.message))
  }

  function Expected(p: Policy, said: (seq<Message>, Option<Message>)): seq<Item<Message>> {
    AllOutgoing(p, said.0) + if said.1.Some? then Outgoing(p, said.1.value) + [EndMessage] else []
  }

  // However journal writes and finalizations are mixed, the queue gets what was written before
  // the first finalization, that one message and the end; nothing later reaches it.
  lemma {:induction false} OnlyFirstFinalization(p: Policy, start: seq<Item<Message>>, calls: seq<Call>)
    ensures var said := Said(calls);
      AllCalled(p, Sink(start, false, false), calls) ==
        Sink(start + Expected(p, said), said.1.Some?, said.1.Some?)
  {
    if calls == [] {
      assert start + Expected(p, Said(calls)) == start;
    } else {
      var front, last := calls[..|calls| - 1], calls[|calls| - 1];
      OnlyFirstFinalization(p, start, front);
      var written, out := Said(front).0, Outgoing(p, last.message);
      if Said(front).1.None? {
        assert Expected(p, Said(front)) == AllOutgoing(p, written);
        if last.Write? {
          assert (written + [last.message])[..|written|] == written;
          assert Expected(p, Said(calls)) == AllOutgoing(p, written) + out;
          Regroup(start, AllOutgoing(p, written), out);
        } else {
          Regroup(start, AllOutgoing(p, written), out);
          Regroup(start, AllOutgoing(p, written) + out, [EndMessage]);
          Regroup(AllOutgoing(p, written), out, [EndMessage]);
        }
      }
    }
  }

  // So nothing that is called once the end was sent changes anything, and the queue can be closed.
  lemma {:induction false} NothingLater(p: Policy, k: Sink, calls: seq<Call>)
    requires k.ended && k.finalized
    ensures AllCalled(p, k, calls) == k
  {
    if calls != [] {
      NothingLater(p, k, calls[..|calls| - 1]);
    }
  }
}
