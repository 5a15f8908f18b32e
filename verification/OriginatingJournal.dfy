// The journal that holds one message back until it knows whether the next one repeats it
// (originating_journal.py).
module OriginatingJournal {
  import opened PyDicts

  // The content of a message, what its class is relevant to, and the message it is.
  // relevant: may enter the chat history; isSystem: SystemMessage; isToolResult: entered as a
  // plain AI message.
  datatype Message = Message(id: nat, content: string, relevant: bool, isSystem: bool, isToolResult: bool)

  datatype HistoryEntry = AsIs(message: Message) | AsAiMessage(content: string)

  // A message and the origin it was written with.
  datatype Written = Written(message: Message, origin: string)

  datatype Op =
    | Write(message: Message, origin: Option<string>)
    | Defer(message: Message)  // write_message_if_next_not_dupe

  /* ---------- the declarative rule ---------- */

  predicate Repeats(deferred: Message, next: Op) {
    next.Write? && next.message.content == deferred.content
  }

  function OriginOf(own: string, op: Op): string {
    if op.Write? && op.origin.Some? then op.origin.value else own
  }

  // What operation `now` makes of the one before it: a deferred message is emitted, once, unless
  // `now` writes the same content.
  function EmitsBefore(own: string, before: Op, now: Op): seq<Written> {
    if before.Defer? && !Repeats(before.message, now) then [Written(before.message, OriginOf(own, now))] else []
  }

  function EmitsItself(own: string, now: Op): seq<Written> {
    if now.Write? then [Written(now.message, OriginOf(own, now))] else []
  }

  // The whole wrapped stream, read off the operations alone.
  function Stream(own: string, ops: seq<Op>): seq<Written> {
    if ops == [] then []
    else
      var now := ops[|ops| - 1];
      Stream(own, ops[..|ops| - 1]) +
      ((if |ops| > 1 then EmitsBefore(own, ops[|ops| - 2], now) else []) + EmitsItself(own, now))
  }

  function EntersHistory(m: Message): seq<HistoryEntry> {
    if !m.relevant then []
    else if m.isToolResult then [AsAiMessage(m.content)]
    else if m.isSystem then []
    else [AsIs(m)]
  }

  // A written message enters the chat history; a deferred one only if another deferral flushes it.
  function History(ops: seq<Op>): seq<HistoryEntry> {
    if ops == [] then []
    else
      var now := ops[|ops| - 1];
      History(ops[..|ops| - 1]) +
      (if now.Write? then EntersHistory(now.message)
       else if |ops| > 1 && ops[|ops| - 2].Defer? then EntersHistory(ops[|ops| - 2].message)
       else [])
  }

  function PendingAfter(ops: seq<Op>): Option<Message> {
    if ops != [] && ops[|ops| - 1].Defer? then Some(ops[|ops| - 1].message) else None
  }

  /* ---------- the program ---------- */

  class Journal {
    const origin: string
    const keepsHistory: bool
    var pending: Option<Message>
    var wrapped: seq<Written>            // what the wrapped journal was given
    var chatHistory: seq<HistoryEntry>
    ghost var ops: seq<Op>               // the calls so far

    ghost predicate Valid()
      reads this
    {
      && pending == PendingAfter(ops)
      && wrapped == Stream(origin, ops)
      && chatHistory == (if keepsHistory then History(ops) else [])
    }

    constructor (origin: string, keepsHistory: bool)
      ensures Valid() && ops == [] && this.origin == origin && this.keepsHistory == keepsHistory
    {
      this.origin, this.keepsHistory := origin, keepsHistory;
      pending, wrapped, chatHistory, ops := None, [], [], [];
    }

    // The body of write_message, which the deferred write calls too.
    method WriteNow(message: Message, origin: Option<string>)
      modifies this`pending, this`wrapped, this`chatHistory
      ensures pending == None
      ensures chatHistory == old(chatHistory) + if keepsHistory then EntersHistory(message) else []
      ensures var use := if origin.Some? then origin.value else this.origin;
        wrapped == old(wrapped) +
          ((if old(pending).Some? && old(pending).value.content != message.content
            then [Written(old(pending).value, use)] else []) + [Written(message, use)])
    {
      var useOrigin := this.origin;
      if origin.Some? {
        useOrigin := origin.value;
      }
      if keepsHistory && message.relevant {
        var entry := if message.isToolResult then AsAiMessage(message.content) else AsIs(message);
        if !(entry.AsIs? && entry.message.isSystem) {
          chatHistory := chatHistory + [entry];
        }
      }
      ghost var flushed: seq<Written> := [];
      if pending.Some? {
        if pending.value.content != message.content {
          flushed := [Written(pending.value, useOrigin)];
          wrapped := wrapped + [Written(pending.value, useOrigin)];
        }
        pending := None;
      }
      wrapped := wrapped + [Written(message, useOrigin)];
      assert old(wrapped) + [] == old(wrapped);
      Regroup(old(wrapped), flushed, [Written(message, useOrigin)]);
    }

    method WriteMessage(message: Message, origin: Option<string>)
      requires Valid()
      modifies this
      ensures Valid() && ops == old(ops) + [Write(message, origin)]
    {
      Settles(this.origin, ops, message, origin);
      WriteNow(message, origin);
      ops := ops + [Write(message, origin)];
    }

    method WriteMessageIfNextNotDupe(message: Message)
      requires Valid()
      modifies this
      ensures Valid() && ops == old(ops) + [Defer(message)]
    {
      ghost var start := wrapped;
      if pending.Some? {
        WriteNow(pending.value, None);
      }
      pending := Some(message);
      ops := ops + [Defer(message)];
      assert ops[..|ops| - 1] == old(ops);
      assert start + [] == start;
    }
  }

  /* ---------- one more call ---------- */

  predicate Waits(ops: seq<Op>) {
    ops != [] && ops[|ops| - 1].Defer?
  }

  // A write puts itself behind all that came before, after the message that waits, if one does
  // and says something else; both under the origin of the write.
  lemma OneMoreWrite(own: string, ops: seq<Op>, m: Message, origin: Option<string>)
    ensures var use := if origin.Some? then origin.value else own;
      Stream(own, ops + [Write(m, origin)]) == Stream(own, ops) +
        ((if Waits(ops) && ops[|ops| - 1].message.content != m.content
          then [Written(ops[|ops| - 1].message, use)] else []) + [Written(m, use)])
  {
    assert (ops + [Write(m, origin)])[..|ops|] == ops;
  }

  // A deferral only flushes the message that waits, under the journal's own origin, and into the
  // chat history as well.
  lemma OneMoreDeferral(own: string, ops: seq<Op>, m: Message)
    ensures Stream(own, ops + [Defer(m)]) ==
      Stream(own, ops) + if Waits(ops) then [Written(ops[|ops| - 1].message, own)] else []
    ensures !Waits(ops) ==> History(ops + [Defer(m)]) == History(ops)
    ensures PendingAfter(ops + [Defer(m)]) == Some(m)
  {
    assert (ops + [Defer(m)])[..|ops|] == ops;
    assert (if Waits(ops) then [Written(ops[|ops| - 1].message, own)] else []) + [] ==
      if Waits(ops) then [Written(ops[|ops| - 1].message, own)] else [];
  }

  // What a write makes of the rule, in terms of the message that waits.
  lemma Settles(own: string, ops: seq<Op>, m: Message, origin: Option<string>)
    ensures var waiting, use := PendingAfter(ops), if origin.Some? then origin.value else own;
      Stream(own, ops + [Write(m, origin)]) == Stream(own, ops) +
        ((if waiting.Some? && waiting.value.content != m.content then [Written(waiting.value, use)] else []) +
         [Written(m, use)])
    ensures History(ops + [Write(m, origin)]) == History(ops) + EntersHistory(m)
    ensures PendingAfter(ops + [Write(m, origin)]) == None
  {
    OneMoreWrite(own, ops, m, origin);
    assert (ops + [Write(m, origin)])[..|ops|] == ops;
  }

  /* ---------- the chat history of a whole run ---------- */

  // The message of operation k is written in the end: at once, or as a deferred one that another
  // deferral flushes.  One that is flushed by a write is not written by the journal itself.
  predicate Reaches(ops: seq<Op>, k: nat)
    requires k < |ops|
  {
    ops[k].Write? || (k + 1 < |ops| && ops[k + 1].Defer?)
  }

  // How often a message was kept as it is, and how often a content was as a plain AI message.
  function KeptAsIs(history: seq<HistoryEntry>, id: nat): nat {
    if history == [] then 0
    else
      var last := history[|history| - 1];
      KeptAsIs(history[..|history| - 1], id) + if last.AsIs? && last.message.id == id then 1 else 0
  }

  function KeptAsAi(history: seq<HistoryEntry>, content: string): nat {
    if history == [] then 0
    else KeptAsAi(history[..|history| - 1], content) + if history[|history| - 1] == AsAiMessage(content) then 1 else 0
  }

  // How many tool results of that content reach the history.
  function ToolResults(ops: seq<Op>, content: string, n: nat): nat
    requires n <= |ops|
  {
    if n == 0 then 0
    else
      var m := ops[n - 1].message;
      ToolResults(ops, content, n - 1) +
      if Reaches(ops, n - 1) && m.relevant && m.isToolResult && m.content == content then 1 else 0
  }

  // How many operations with that id are kept as they are.
  function PlainMessages(ops: seq<Op>, id: nat, n: nat): nat
    requires n <= |ops|
  {
    if n == 0 then 0
    else
      var m := ops[n - 1].message;
      PlainMessages(ops, id, n - 1) +
      if Reaches(ops, n - 1) && m.relevant && !m.isToolResult && !m.isSystem && m.id == id then 1 else 0
  }

  lemma {:induction false} KeptAppend(a: seq<HistoryEntry>, b: seq<HistoryEntry>, id: nat, content: string)
    ensures KeptAsIs(a + b, id) == KeptAsIs(a, id) + KeptAsIs(b, id)
    ensures KeptAsAi(a + b, content) == KeptAsAi(a, content) + KeptAsAi(b, content)
  {
    if b == [] {
      assert a + b == a;
    } else {
      assert (a + b)[..|a + b| - 1] == a + b[..|b| - 1];
      KeptAppend(a, b[..|b| - 1], id, content);
    }
  }

  lemma KeptOne(m: Message, id: nat, content: string)
    ensures KeptAsIs(EntersHistory(m), id) ==
      if m.relevant && !m.isToolResult && !m.isSystem && m.id == id then 1 else 0
    ensures KeptAsAi(EntersHistory(m), content) == if m.relevant && m.isToolResult && m.content == content then 1 else 0
  {
    assert forall e: HistoryEntry :: [e][..0] == [];
  }

  // One more operation settles only whether the one before it reaches the history.
  lemma {:induction false} SameBefore(ops: seq<Op>, id: nat, content: string, n: nat)
    requires 0 < |ops| && n < |ops|
    ensures n < |ops| - 1 ==>
      && ToolResults(ops, content, n) == ToolResults(ops[..|ops| - 1], content, n)
      && PlainMessages(ops, id, n) == PlainMessages(ops[..|ops| - 1], id, n)
    ensures n == |ops| - 1 ==>
      var flushed := if |ops| > 1 && ops[|ops| - 1].Defer? && ops[|ops| - 2].Defer?
                     then EntersHistory(ops[|ops| - 2].message) else [];
      && ToolResults(ops, content, n) == ToolResults(ops[..n], content, n) + KeptAsAi(flushed, content)
      && PlainMessages(ops, id, n) == PlainMessages(ops[..n], id, n) + KeptAsIs(flushed, id)
    decreases n
  {
    if n > 0 {
      SameBefore(ops, id, content, n - 1);
      KeptOne(ops[|ops| - 2].message, id, content);
    }
  }

  // Over a whole run, every message that is relevant and written enters the history, exactly as
  // often as that happens: a tool result as a plain AI message of its content, anything else but
  // a system message as it is; and the history only ever grows at its end.
  lemma {:induction false} HistoryExactly(ops: seq<Op>, id: nat, content: string)
    ensures KeptAsIs(History(ops), id) == PlainMessages(ops, id, |ops|)
    ensures KeptAsAi(History(ops), content) == ToolResults(ops, content, |ops|)
    ensures ops != [] ==> History(ops[..|ops| - 1]) <= History(ops)
  {
    if ops != [] {
      var front, now := ops[..|ops| - 1], ops[|ops| - 1];
      HistoryExactly(front, id, content);
      SameBefore(ops, id, content, |front|);
      KeptOne(now.message, id, content);
      var more := if now.Write? then EntersHistory(now.message)
                  else if |ops| > 1 && ops[|ops| - 2].Defer? then EntersHistory(ops[|ops| - 2].message) else [];
      assert History(ops) == History(front) + more;
      KeptAppend(History(front), more, id, content);
    }
  }

  /* ---------- what the rule means ---------- */

  // How often a message appears in the stream.
  function Times(s: seq<Written>, id: nat): nat {
    if s == [] then 0 else Times(s[..|s| - 1], id) + if s[|s| - 1].message.id == id then 1 else 0
  }

  // No other operation carries the id of the k-th message.
  ghost predicate OnlyOne(ops: seq<Op>, k: nat, id: nat) {
    && k < |ops|
    && ops[k].message.id == id
    && forall i :: 0 <= i < |ops| && i != k ==> ops[i].message.id != id
  }

  lemma {:induction false} TimesAppend(a: seq<Written>, b: seq<Written>, id: nat)
    ensures Times(a + b, id) == Times(a, id) + Times(b, id)
  {
    if b == [] {
      assert a + b == a;
    } else {
      assert (a + b)[..|a + b| - 1] == a + b[..|b| - 1];
      TimesAppend(a, b[..|b| - 1], id);
    }
  }

  lemma TimesOne(w: Written, id: nat)
    ensures Times([w], id) == if w.message.id == id then 1 else 0
  {
    assert [w][..0] == [];
  }

  // What the k-th message is worth in the stream: a written one appears once; a deferred one
  // appears once if another operation follows that does not write the same content, and
  // otherwise never.
  function Expected(ops: seq<Op>, k: nat): nat
    requires k < |ops|
  {
    if ops[k].Write? then 1
    else if k + 1 < |ops| && !Repeats(ops[k].message, ops[k + 1]) then 1
    else 0
  }

  lemma {:induction false} LaterMessagesAbsent(own: string, ops: seq<Op>, id: nat)
    requires forall i :: 0 <= i < |ops| ==> ops[i].message.id != id
    ensures Times(Stream(own, ops), id) == 0
  {
    if ops != [] {
      var front, now := ops[..|ops| - 1], ops[|ops| - 1];
      LaterMessagesAbsent(own, front, id);
      LastPart(own, ops, id);
    }
  }

  // The contribution of the last operation, counted.
  lemma LastPart(own: string, ops: seq<Op>, id: nat)
    requires ops != []
    ensures Times(Stream(own, ops), id) == Times(Stream(own, ops[..|ops| - 1]), id)
      + (if |ops| > 1 && ops[|ops| - 2].Defer? && !Repeats(ops[|ops| - 2].message, ops[|ops| - 1])
            && ops[|ops| - 2].message.id == id then 1 else 0)
      + (if ops[|ops| - 1].Write? && ops[|ops| - 1].message.id == id then 1 else 0)
  {
    var now := ops[|ops| - 1];
    var first := if |ops| > 1 then EmitsBefore(own, ops[|ops| - 2], now) else [];
    TimesAppend(Stream(own, ops[..|ops| - 1]), first + EmitsItself(own, now), id);
    TimesAppend(first, EmitsItself(own, now), id);
    if |ops| > 1 {
      TimesOne(Written(ops[|ops| - 2].message, OriginOf(own, now)), id);
    }
    TimesOne(Written(now.message, OriginOf(own, now)), id);
  }

  lemma {:induction false} ExactlyAsExpected(own: string, ops: seq<Op>, k: nat, id: nat)
    requires OnlyOne(ops, k, id)
    ensures Times(Stream(own, ops), id) == Expected(ops, k)
  {
    LastPart(own, ops, id);
    if k == |ops| - 1 {
      LaterMessagesAbsent(own, ops[..|ops| - 1], id);
    } else {
      OnlyOneInFront(ops, k, id);
      ExactlyAsExpected(own, ops[..|ops| - 1], k, id);
      ExpectedMore(ops, k, id);
    }
  }

  // What one more operation changes for an earlier message.
  lemma ExpectedMore(ops: seq<Op>, k: nat, id: nat)
    requires OnlyOne(ops, k, id) && k < |ops| - 1
    ensures ops[|ops| - 1].message.id != id
    ensures Expected(ops, k) == Expected(ops[..|ops| - 1], k)
      + (if ops[|ops| - 2].Defer? && !Repeats(ops[|ops| - 2].message, ops[|ops| - 1])
            && ops[|ops| - 2].message.id == id then 1 else 0)
  {
    assert k < |ops| - 2 ==> ops[|ops| - 2].message.id != id;
  }

  lemma OnlyOneInFront(ops: seq<Op>, k: nat, id: nat)
    requires OnlyOne(ops, k, id) && k < |ops| - 1
    ensures OnlyOne(ops[..|ops| - 1], k, id)
  {
    var front := ops[..|ops| - 1];
    forall i | 0 <= i < |front| && i != k
      ensures front[i].message.id != id
    {
      assert front[i] == ops[i];
    }
  }
}
