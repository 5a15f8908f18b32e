// The processor that turns a conversation into a history that can be sent and read back.
module ChatHistoryProcessing {
  import opened PyDicts
  import opened ChatHistory

  datatype Kind = System | Human | Ai | OtherKind

  // A message dictionary: its type, its text if it has one, and everything else.
  datatype ChatMessage = ChatMessage(kind: Kind, text: Option<string>, rest: string)

  // Popping the instructions off an empty history raises.
  datatype Outcome = History(messages: seq<ChatMessage>) | IndexError

  const REDACTED := "<redacted>"

  /* ---------- the meaning ---------- */

  predicate SawSystem(messages: seq<ChatMessage>) {
    exists i :: 0 <= i < |messages| && messages[i].kind == System
  }

  // What one message contributes after those before it: at most one message.
  function Kept(before: seq<ChatMessage>, m: ChatMessage): seq<ChatMessage> {
    if m.kind == OtherKind then []
    else if m.kind == System && !SawSystem(before) then [m.(text := Some(REDACTED))]
    else if m.text.None? then []
    else [m.(text := Some(Escape(m.text.value)))]
  }

  function Retained(messages: seq<ChatMessage>): seq<ChatMessage> {
    if messages == [] then []
    else Retained(messages[..|messages| - 1]) + Kept(messages[..|messages| - 1], messages[|messages| - 1])
  }

  // The last n elements, or all of them.
  function LastOf(messages: seq<ChatMessage>, n: nat): seq<ChatMessage> {
    if |messages| <= n then messages else messages[|messages| - n..]
  }

  // A maximum of one or less means no maximum.
  function Curtailed(retained: seq<ChatMessage>, max: Option<int>): Outcome {
    if max.None? || max.value <= 1 then History(retained)
    else if retained == [] then IndexError
    else History([retained[0]] + LastOf(retained[1..], max.value))
  }

  function Processed(messages: seq<ChatMessage>, max: Option<int>): Outcome {
    Curtailed(Retained(messages), max)
  }

  /* ---------- the program ---------- */

  class ChatHistoryMessageProcessor {
    const maxMessageHistory: Option<int>
    var messageHistory: seq<ChatMessage>
    var sawFirstSystem: bool

    constructor (maxMessageHistory: Option<int>)
      ensures this.maxMessageHistory == maxMessageHistory && messageHistory == [] && !sawFirstSystem
    {
      this.maxMessageHistory := maxMessageHistory;
      messageHistory, sawFirstSystem := [], false;
    }

    method ProcessMessage(m: ChatMessage, ghost before: seq<ChatMessage>)
      requires sawFirstSystem == SawSystem(before)
      modifies this
      ensures messageHistory == old(messageHistory) + Kept(before, m)
      ensures sawFirstSystem == SawSystem(before + [m])
      ensures m.kind == OtherKind ==> messageHistory == old(messageHistory)
      ensures m.kind == System && !old(sawFirstSystem) ==>
        messageHistory == old(messageHistory) + [ChatMessage(System, Some("<redacted>"), m.rest)]
      ensures m.kind != OtherKind && (m.kind != System || old(sawFirstSystem)) && m.text.None? ==>
        messageHistory == old(messageHistory)
      ensures m.kind != OtherKind && (m.kind != System || old(sawFirstSystem)) && m.text.Some? ==>
        messageHistory == old(messageHistory) + [ChatMessage(m.kind, Some(EscapeRuns(m.text.value)), m.rest)]
    {
      if m.text.Some? {
        EscapeIsByRuns(m.text.value);
      }
      SawOneMore(before, m);
      assert messageHistory + [] == messageHistory;
      if m.kind == OtherKind {
        return;
      }
      var transformed := None;
      if !sawFirstSystem && m.kind == System {
        transformed := Some(m.(text := Some(REDACTED)));
        sawFirstSystem := true;
      } else if m.text.Some? {
        transformed := Some(m.(text := Some(Escape(m.text.value))));
      }
      if transformed.Some? {
        messageHistory := messageHistory + [transformed.value];
      }
    }

    // A fresh processor on a whole conversation.
    method ProcessMessages(messages: seq<ChatMessage>) returns (outcome: Outcome)
      requires messageHistory == [] && !sawFirstSystem
      modifies this
      ensures outcome == Processed(messages, maxMessageHistory)
      ensures outcome.History? ==> messageHistory == outcome.messages
      ensures var all := Retained(messages);
        if maxMessageHistory.None? || maxMessageHistory.value <= 1 then outcome == History(all)
        else if |all| == 0 then outcome == IndexError
        else if |all| <= maxMessageHistory.value + 1 then outcome == History(all)
        else outcome == History([all[0]] + all[|all| - maxMessageHistory.value..])
    {
      CurtailedIs(Retained(messages), maxMessageHistory);
      for i := 0 to |messages|
        invariant messageHistory == Retained(messages[..i])
        invariant sawFirstSystem == SawSystem(messages[..i])
      {
        ProcessMessage(messages[i], messages[..i]);
        assert messages[..i + 1] == messages[..i] + [messages[i]];
        assert messages[..i + 1][..i] == messages[..i];
      }
      assert messages[..|messages|] == messages;
      if maxMessageHistory.None? || maxMessageHistory.value <= 1 {
        return History(messageHistory);
      }
      if |messageHistory| == 0 {
        return IndexError;
      }
      var instructions := messageHistory[0];
      messageHistory := messageHistory[1..];
      if |messageHistory| > maxMessageHistory.value {
        messageHistory := messageHistory[|messageHistory| - maxMessageHistory.value..];
      }
      messageHistory := [instructions] + messageHistory;
      return History(messageHistory);
    }
  }

  lemma CurtailedIs(all: seq<ChatMessage>, max: Option<int>)
    ensures max.Some? && max.value > 1 && 0 < |all| <= max.value + 1 ==> Curtailed(all, max) == History(all)
    ensures max.Some? && max.value > 1 && max.value + 1 < |all| ==>
      Curtailed(all, max) == History([all[0]] + all[|all| - max.value..])
  {
    if max.Some? && max.value > 1 && all != [] {
      assert [all[0]] + all[1..] == all;
    }
  }

  lemma KeptByRuns(before: seq<ChatMessage>, m: ChatMessage)
    ensures Kept(before, m) ==
      if m.kind == OtherKind then []
      else if m.kind == System && (forall i :: 0 <= i < |before| ==> before[i].kind != System)
      then [ChatMessage(System, Some("<redacted>"), m.rest)]
      else if m.text.None? then []
      else [ChatMessage(m.kind, Some(EscapeRuns(m.text.value)), m.rest)]
  {
    if m.text.Some? {
      EscapeIsByRuns(m.text.value);
    }
  }

  lemma {:induction false} RetainedGrows(messages: seq<ChatMessage>, k: nat)
    requires k <= |messages|
    ensures Retained(messages[..k]) <= Retained(messages)
    decreases |messages|
  {
    if k < |messages| {
      var front := messages[..|messages| - 1];
      RetainedGrows(front, k);
      assert front[..k] == messages[..k];
    } else {
      assert messages[..k] == messages;
    }
  }

  // What each message of a conversation adds behind what those before it made: the first system
  // message redacted, any other text with every run of braces made even, and nothing of other
  // kinds or without a text.
  lemma RetainedByRuns(before: seq<ChatMessage>, m: ChatMessage, after: seq<ChatMessage>)
    ensures Retained(before + [m]) == Retained(before) +
      if m.kind == OtherKind then []
      else if m.kind == System && (forall i :: 0 <= i < |before| ==> before[i].kind != System)
      then [ChatMessage(System, Some("<redacted>"), m.rest)]
      else if m.text.None? then []
      else [ChatMessage(m.kind, Some(EscapeRuns(m.text.value)), m.rest)]
    ensures Retained(before + [m]) <= Retained(before + [m] + after)
  {
    RetainedSnoc(before, m);
    KeptByRuns(before, m);
    RetainedGrows(before + [m] + after, |before| + 1);
    assert (before + [m] + after)[..|before| + 1] == before + [m];
  }

  lemma SawOneMore(before: seq<ChatMessage>, m: ChatMessage)
    ensures SawSystem(before + [m]) == (SawSystem(before) || m.kind == System)
  {
    if SawSystem(before) {
      var i :| 0 <= i < |before| && before[i].kind == System;
      assert (before + [m])[i].kind == System;
    } else if m.kind == System {
      assert (before + [m])[|before|].kind == System;
    }
  }

  /* ---------- a processor on its own output ---------- */

  // A message that escaping leaves alone.
  ghost predicate Settled(m: ChatMessage) {
    m.kind != OtherKind && m.text.Some? && Escape(m.text.value) == m.text.value
  }

  ghost predicate AllSettled(messages: seq<ChatMessage>) {
    forall m :: m in messages ==> Settled(m)
  }

  ghost predicate FirstSystemRedacted(messages: seq<ChatMessage>) {
    forall i :: 0 <= i < |messages| && messages[i].kind == System && !SawSystem(messages[..i]) ==>
      messages[i].text == Some(REDACTED)
  }

  lemma {:induction false} PlainText(s: string)
    requires '{' !in s && '}' !in s
    ensures Escape(s) == s
  {
    if s != [] {
      assert s == [s[0]] + s[1..];
      EscapeOther(s[0], s[1..]);
      PlainText(s[1..]);
    }
  }

  lemma RedactedSettled()
    ensures Escape(REDACTED) == REDACTED
  {
    PlainText(REDACTED);
  }

  lemma KeptSettled(before: seq<ChatMessage>, m: ChatMessage)
    ensures AllSettled(Kept(before, m))
  {
    RedactedSettled();
    if m.text.Some? {
      EscapeIdempotent(m.text.value);
    }
  }

  lemma {:induction false} RetainedSettled(messages: seq<ChatMessage>)
    ensures AllSettled(Retained(messages))
  {
    if messages != [] {
      RetainedSettled(messages[..|messages| - 1]);
      KeptSettled(messages[..|messages| - 1], messages[|messages| - 1]);
    }
  }

  // On settled messages the processor changes nothing but the first system message.
  lemma {:induction false} RetainedAgain(messages: seq<ChatMessage>)
    requires AllSettled(messages)
    ensures |Retained(messages)| == |messages|
    ensures Retained(messages) == messages <==> FirstSystemRedacted(messages)
  {
    if messages != [] {
      var front, last := messages[..|messages| - 1], messages[|messages| - 1];
      assert messages == front + [last];
      RetainedAgain(front);
      RedactedSnoc(front, last);
      assert Retained(messages)[..|front|] == Retained(front);
      assert Retained(messages)[|front|..] == Kept(front, last);
      assert Settled(last);
    }
  }

  lemma RedactedSnoc(front: seq<ChatMessage>, last: ChatMessage)
    ensures FirstSystemRedacted(front + [last]) <==>
      FirstSystemRedacted(front) && (last.kind == System && !SawSystem(front) ==> last.text == Some(REDACTED))
  {
    var all := front + [last];
    forall i | 0 <= i <= |front| ensures all[..i] == front[..i] {}
    assert all[|front|] == last && front[..|front|] == front;
    if FirstSystemRedacted(all) {
      forall i | 0 <= i < |front| && front[i].kind == System && !SawSystem(front[..i])
        ensures front[i].text == Some(REDACTED)
      {
        assert all[i] == front[i];
      }
    }
  }

  lemma {:induction false} RetainedRedacts(messages: seq<ChatMessage>)
    ensures FirstSystemRedacted(Retained(messages))
    ensures SawSystem(Retained(messages)) <==> SawSystem(messages)
  {
    if messages != [] {
      var front, last := messages[..|messages| - 1], messages[|messages| - 1];
      assert messages == front + [last];
      RetainedRedacts(front);
      SawOneMore(front, last);
      if Kept(front, last) == [] {
        assert Retained(messages) == Retained(front);
      } else {
        SawOneMore(Retained(front), Kept(front, last)[0]);
        RedactedSnoc(Retained(front), Kept(front, last)[0]);
      }
    }
  }

  lemma CurtailedFits(retained: seq<ChatMessage>, max: Option<int>)
    requires Curtailed(retained, max).History? && AllSettled(retained)
    ensures var output := Curtailed(retained, max).messages;
      AllSettled(output) && (max.Some? && max.value > 1 ==> 0 < |output| <= max.value + 1)
  {
  }

  lemma CurtailedAgain(output: seq<ChatMessage>, max: Option<int>)
    requires max.Some? && max.value > 1 ==> 0 < |output| <= max.value + 1
    ensures Curtailed(output, max) == History(output)
  {
    if max.Some? && max.value > 1 {
      assert output == [output[0]] + output[1..];
    }
  }

  lemma FixedWhenRedacted(messages: seq<ChatMessage>, max: Option<int>)
    requires Processed(messages, max).History?
    ensures var output := Processed(messages, max).messages;
      Processed(output, max) == History(output) <==> FirstSystemRedacted(output)
  {
    var output := Processed(messages, max).messages;
    RetainedSettled(messages);
    CurtailedFits(Retained(messages), max);
    RetainedAgain(output);
    CurtailedAgain(Retained(output), max);
  }

  // Curtailing these retained messages drops the redacted instructions and keeps a later system
  // message that is not redacted as the first one: there are more than the first and the last
  // `max`, the first is no system message, one of those dropped is, and the first system message
  // among the last `max` says something else.
  ghost predicate ExposesSystem(retained: seq<ChatMessage>, max: Option<int>) {
    && max.Some? && 1 < max.value && max.value + 1 < |retained|
    && retained[0].kind != System
    && SawSystem(retained[1..|retained| - max.value])
    && FirstSystemUnredacted(retained[|retained| - max.value..])
  }

  ghost predicate FirstSystemUnredacted(messages: seq<ChatMessage>) {
    exists i :: 0 <= i < |messages| && FirstSystemAt(messages, i) && messages[i].text != Some(REDACTED)
  }

  predicate FirstSystemAt(messages: seq<ChatMessage>, i: nat)
    requires i < |messages|
  {
    messages[i].kind == System && !SawSystem(messages[..i])
  }

  lemma SawAppend(a: seq<ChatMessage>, b: seq<ChatMessage>)
    ensures SawSystem(a + b) == (SawSystem(a) || SawSystem(b))
  {
    if SawSystem(a) {
      var i :| 0 <= i < |a| && a[i].kind == System;
      assert (a + b)[i].kind == System;
    }
    if SawSystem(b) {
      var i :| 0 <= i < |b| && b[i].kind == System;
      assert (a + b)[|a| + i].kind == System;
    }
  }

  lemma RedactedAt(messages: seq<ChatMessage>)
    ensures FirstSystemRedacted(messages) <==>
      forall i :: 0 <= i < |messages| && FirstSystemAt(messages, i) ==> messages[i].text == Some(REDACTED)
    ensures FirstSystemRedacted(messages) <==> !FirstSystemUnredacted(messages)
  {
  }

  // Without a system message in front, the first one is that of the rest.
  lemma NoSystemInFront(front: seq<ChatMessage>, rest: seq<ChatMessage>)
    requires !SawSystem(front)
    ensures FirstSystemRedacted(front + rest) <==> FirstSystemRedacted(rest)
  {
    var all := front + rest;
    forall i | 0 <= i < |rest|
      ensures FirstSystemAt(all, |front| + i) <==> FirstSystemAt(rest, i)
    {
      assert all[..|front| + i] == front + rest[..i];
      SawAppend(front, rest[..i]);
    }
    forall i | 0 <= i < |front|
      ensures !FirstSystemAt(all, i)
    {
      assert all[i] == front[i];
    }
    RedactedAt(all);
    RedactedAt(rest);
    if FirstSystemRedacted(all) {
      forall i | 0 <= i < |rest| && FirstSystemAt(rest, i)
        ensures rest[i].text == Some(REDACTED)
      {
        assert FirstSystemAt(all, |front| + i) && all[|front| + i] == rest[i];
      }
    }
    if FirstSystemRedacted(rest) {
      forall i | 0 <= i < |all| && FirstSystemAt(all, i)
        ensures all[i].text == Some(REDACTED)
      {
        assert i >= |front| && FirstSystemAt(rest, i - |front|);
      }
    }
  }

  // The curtailed messages, when something is dropped.
  lemma DroppedSome(retained: seq<ChatMessage>, max: int)
    requires 1 < max && max + 1 < |retained| && FirstSystemRedacted(retained)
    ensures var tail := retained[|retained| - max..];
      FirstSystemRedacted([retained[0]] + tail) <==>
        retained[0].kind == System || !SawSystem(retained[1..|retained| - max]) || FirstSystemRedacted(tail)
  {
    var first, middle, tail := [retained[0]], retained[1..|retained| - max], retained[|retained| - max..];
    if retained[0].kind == System {
      assert retained[..0] == [];
      LedBySystem(first + tail);
    } else {
      NoSystemInFront(first, tail);
      if !SawSystem(middle) {
        SawAppend(first, middle);
        assert retained == (first + middle) + tail;
        NoSystemInFront(first + middle, tail);
      }
    }
  }

  // A fresh processor run on its own output gives it back, except exactly when curtailment
  // exposes a system message.
  lemma FixedPointExactly(messages: seq<ChatMessage>, max: Option<int>)
    requires Processed(messages, max).History?
    ensures var output := Processed(messages, max).messages;
      Processed(output, max) == History(output) <==> !ExposesSystem(Retained(messages), max)
  {
    FixedWhenRedacted(messages, max);
    RetainedRedacts(messages);
    CurtailedRedacted(Retained(messages), max);
  }

  lemma CurtailedRedacted(retained: seq<ChatMessage>, max: Option<int>)
    requires FirstSystemRedacted(retained) && Curtailed(retained, max).History?
    ensures FirstSystemRedacted(Curtailed(retained, max).messages) <==> !ExposesSystem(retained, max)
  {
    if max.Some? && 1 < max.value {
      if max.value + 1 < |retained| {
        assert LastOf(retained[1..], max.value) == retained[|retained| - max.value..];
        DroppedSome(retained, max.value);
        RedactedAt(retained[|retained| - max.value..]);
      } else {
        assert [retained[0]] + retained[1..] == retained;
      }
    }
  }

  // So always without a maximum, and with one whenever the first retained message is a system message.
  lemma FixedPointUsually(messages: seq<ChatMessage>, max: Option<int>)
    requires Processed(messages, max).History?
    requires max.None? || max.value <= 1 || Retained(messages)[0].kind == System
    ensures var output := Processed(messages, max).messages;
      Processed(output, max) == History(output)
  {
    FixedPointExactly(messages, max);
  }

  lemma LedBySystem(output: seq<ChatMessage>)
    requires output != [] && output[0].kind == System && output[0].text == Some(REDACTED)
    ensures FirstSystemRedacted(output)
  {
    forall i | 0 < i < |output| ensures SawSystem(output[..i]) {
      assert output[..i][0].kind == System;
    }
  }

  // Curtailment can drop the redacted message and expose a later one: with a maximum of two,
  // no history human, system, human, system of plain texts is a fixed point.
  lemma FixedPointFails(human: ChatMessage, system: ChatMessage)
    requires human.kind == Human && Settled(human)
    requires system.kind == System && Settled(system) && system.text != Some(REDACTED)
    ensures var output := Processed([human, system, human, system], Some(2));
      output.History? && Processed(output.messages, Some(2)) != output
  {
    var redacted := system.(text := Some(REDACTED));
    var retained := [human, redacted, human, system];
    FourRetained(human, system);
    assert retained[1..2] == [redacted] && [redacted][0].kind == System;
    assert retained[2..] == [human, system];
    assert FirstSystemAt([human, system], 1);
    FixedPointExactly([human, system, human, system], Some(2));
  }

  lemma FourRetained(human: ChatMessage, system: ChatMessage)
    requires human.kind == Human && Settled(human) && system.kind == System && Settled(system)
    ensures Retained([human, system, human, system]) ==
      [human, system.(text := Some(REDACTED)), human, system]
  {
    var redacted := system.(text := Some(REDACTED));
    TwoRetained(human, system);
    RetainedSnoc([human, system], human);
    RetainedSnoc([human, system, human], system);
    SeenSystem([human, system, human], 1);
    assert [human, system] + [human] == [human, system, human];
    assert [human, system, human] + [system] == [human, system, human, system];
    assert [human, redacted] + [human] == [human, redacted, human];
    assert [human, redacted, human] + [system] == [human, redacted, human, system];
  }

  lemma TwoRetained(human: ChatMessage, system: ChatMessage)
    requires human.kind == Human && Settled(human) && system.kind == System
    ensures Retained([human, system]) == [human, system.(text := Some(REDACTED))]
  {
    RetainedSnoc([], human);
    RetainedSnoc([human], system);
    assert [] + [human] == [human] && [human] + [system] == [human, system];
    assert !SawSystem([human]);
  }

  lemma SeenSystem(messages: seq<ChatMessage>, i: nat)
    requires i < |messages| && messages[i].kind == System
    ensures SawSystem(messages)
  {
  }

  lemma RetainedSnoc(before: seq<ChatMessage>, m: ChatMessage)
    ensures Retained(before + [m]) == Retained(before) + Kept(before, m)
  {
    assert (before + [m])[..|before|] == before;
  }
}
