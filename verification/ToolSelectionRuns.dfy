// Any interleaving of model answers, tool calls and clean-ups by any number of middleware
// instances over one sly_data.  Each is one step: a model answer is recorded without waiting,
// a tool call is checked before its handler is awaited and cleaned up after it returns.
module ToolSelectionRuns {
  import opened PyDicts
  import opened ToolSelection

  datatype Event =
    | Answered(ns: string, tools: seq<Tool>, messages: seq<Message>)
    | Called(ns: string, policy: Policy, call: ToolCall)
    | Returned(ns: string, call: ToolCall, of: nat)  // the handler of event number `of` returned

  // What an event makes of the record of a namespace.
  function After(record: Record, ns: string, e: Event): Record {
    if e.ns != ns then record
    else
      match e
      case Answered(_, tools, messages) => Stamped(record, EmittedIds(messages), Advertised(tools))
      case Called(_, _, _) => record
      case Returned(_, call, _) => if call.id.Some? then record - {call.id} else record
  }

  function RecordOf(h: seq<Event>, ns: string): Record {
    if h == [] then map[] else After(RecordOf(h[..|h| - 1], ns), ns, h[|h| - 1])
  }

  // The tool call at position i of the history is let through.
  predicate Executes(h: seq<Event>, i: nat)
    requires i < |h|
  {
    h[i].Called? && Denies(h[i].policy, RecordOf(h[..i], h[i].ns), h[i].call).None?
  }

  // Only the handler of a call that was let through returns.
  ghost predicate Possible(h: seq<Event>) {
    forall i :: 0 <= i < |h| && h[i].Returned? ==> ReturnsFrom(h, i)
  }

  ghost predicate ReturnsFrom(h: seq<Event>, i: nat)
    requires i < |h| && h[i].Returned?
  {
    h[i].of < i && Executes(h, h[i].of) && h[h[i].of].ns == h[i].ns && h[h[i].of].call == h[i].call
  }

  /* ---------- a record is the latest word on its id ---------- */

  predicate Stamps(e: Event, ns: string, id: Option<string>) {
    e.Answered? && e.ns == ns && id in EmittedIds(e.messages)
  }

  predicate Clears(e: Event, ns: string, id: Option<string>) {
    e.Returned? && e.ns == ns && e.call.id == id && id.Some?
  }

  // The model call at position j recorded the id, and nothing has recorded or cleared it since.
  ghost predicate LatestWord(h: seq<Event>, ns: string, id: Option<string>, j: nat) {
    && j < |h|
    && Stamps(h[j], ns, id)
    && forall k :: j < k < |h| ==> !Stamps(h[k], ns, id) && !Clears(h[k], ns, id)
  }

  lemma AfterOne(record: Record, ns: string, id: Option<string>, e: Event)
    ensures var now := After(record, ns, e);
      && (Stamps(e, ns, id) ==> id in now && now[id] == Advertised(e.tools))
      && (Clears(e, ns, id) ==> id !in now)
      && (!Stamps(e, ns, id) && !Clears(e, ns, id) ==>
            (id in now <==> id in record) && (id in now ==> now[id] == record[id]))
  {
  }

  lemma LatestWordLast(h: seq<Event>, ns: string, id: Option<string>, j: nat)
    requires h != []
    ensures LatestWord(h, ns, id, j) <==>
      if j == |h| - 1 then Stamps(h[j], ns, id)
      else LatestWord(h[..|h| - 1], ns, id, j) && !Stamps(h[|h| - 1], ns, id) && !Clears(h[|h| - 1], ns, id)
  {
    var front := h[..|h| - 1];
    if j < |front| {
      assert front[j] == h[j];
      assert forall k :: j < k < |front| ==> front[k] == h[k];
    }
  }

  lemma {:induction false} RecordIsLatestWord(h: seq<Event>, ns: string, id: Option<string>)
    ensures id in RecordOf(h, ns) <==> exists j: nat :: LatestWord(h, ns, id, j)
    ensures forall j: nat :: LatestWord(h, ns, id, j) ==>
      id in RecordOf(h, ns) && RecordOf(h, ns)[id] == Advertised(h[j].tools)
  {
    if h != [] {
      var front, last := h[..|h| - 1], h[|h| - 1];
      RecordIsLatestWord(front, ns, id);
      AfterOne(RecordOf(front, ns), ns, id, last);
      forall j: nat
        ensures LatestWord(h, ns, id, j) <==>
          if j == |h| - 1 then Stamps(h[j], ns, id)
          else LatestWord(front, ns, id, j) && !Stamps(last, ns, id) && !Clears(last, ns, id)
      {
        LatestWordLast(h, ns, id, j);
      }
      var now := RecordOf(h, ns);
      assert now == After(RecordOf(front, ns), ns, last);
      if Stamps(last, ns, id) {
        assert LatestWord(h, ns, id, |h| - 1);
      } else if id in now {
        var j: nat :| LatestWord(front, ns, id, j);
        assert LatestWord(h, ns, id, j);
      }
      forall j: nat | LatestWord(h, ns, id, j)
        ensures id in now && now[id] == Advertised(h[j].tools)
      {
        if j < |h| - 1 {
          assert LatestWord(front, ns, id, j) && front[j] == h[j];
        }
      }
    }
  }

  /* ---------- advertised equals executable ---------- */

  // Tools of the model call at position j include the name.
  predicate Offers(h: seq<Event>, j: nat, name: Option<string>)
    requires j < |h| && h[j].Answered?
  {
    name.Some? && name.value in Advertised(h[j].tools)
  }

  // In every history, a call is executed exactly when its name is among those recorded by the
  // latest word on its id, or there is no such word and the policy is "allow".
  lemma AdvertisedEqualsExecutable(h: seq<Event>, i: nat)
    requires i < |h| && h[i].Called?
    ensures var ns, id, before := h[i].ns, h[i].call.id, h[..i];
      && (forall j: nat :: LatestWord(before, ns, id, j) ==> (Executes(h, i) <==> Offers(before, j, h[i].call.name)))
      && ((forall j: nat :: !LatestWord(before, ns, id, j)) ==> (Executes(h, i) <==> h[i].policy == Allow))
  {
    RecordIsLatestWord(h[..i], h[i].ns, h[i].call.id);
  }

  // An id the model gave out once, before the call, in the call's namespace.
  ghost predicate GivenOnce(h: seq<Event>, ns: string, id: Option<string>, j: nat, i: nat) {
    && j < i <= |h|
    && Stamps(h[j], ns, id)
    && forall k :: 0 <= k < i && k != j ==> !Stamps(h[k], ns, id)
  }

  // With ids given out once, an unadvertised name gets through only on an id whose record was
  // already used up by a call that was executed and returned, and only under "allow".
  lemma OnlyAfterSuccess(h: seq<Event>, j: nat, i: nat)
    requires Possible(h) && i < |h| && h[i].Called? && GivenOnce(h, h[i].ns, h[i].call.id, j, i)
    requires Executes(h, i) && !Offers(h, j, h[i].call.name)
    ensures h[i].policy == Allow
    ensures exists m :: j < m < i && Clears(h[m], h[i].ns, h[i].call.id) && ReturnsFrom(h, m)
  {
    var ns, id, before := h[i].ns, h[i].call.id, h[..i];
    AdvertisedEqualsExecutable(h, i);
    assert !LatestWord(before, ns, id, j);
    assert exists m :: j < m < i && (Stamps(h[m], ns, id) || Clears(h[m], ns, id));
    var m :| j < m < i && Clears(h[m], ns, id);
    assert ReturnsFrom(h, m);
    forall k: nat
      ensures !LatestWord(before, ns, id, k)
    {
      if k < i && k != j {
        assert before[k] == h[k];
        assert !Stamps(h[k], ns, id);
      }
    }
  }

  // Calls without an id share one record that nothing clears, so the latest answer that carried
  // such a call decides for all of them.
  lemma {:induction false} NoIdNoClearing(h: seq<Event>, ns: string, j: nat)
    requires j < |h| && Stamps(h[j], ns, None)
    requires forall k :: j < k < |h| ==> !Stamps(h[k], ns, None)
    ensures None in RecordOf(h, ns) && RecordOf(h, ns)[None] == Advertised(h[j].tools)
  {
    RecordIsLatestWord(h, ns, None);
    assert LatestWord(h, ns, None, j);
  }

  /* ---------- namespaces do not meet ---------- */

  function OfNamespace(h: seq<Event>, ns: string): seq<Event> {
    if h == [] then []
    else OfNamespace(h[..|h| - 1], ns) + if h[|h| - 1].ns == ns then [h[|h| - 1]] else []
  }

  // The record of a namespace is what its own events alone make of it, so the verdict on a
  // call is the one it would get if no other instance ran.
  lemma {:induction false} NamespacesApart(h: seq<Event>, ns: string)
    ensures RecordOf(h, ns) == RecordOf(OfNamespace(h, ns), ns)
  {
    if h != [] {
      var front, last := h[..|h| - 1], h[|h| - 1];
      NamespacesApart(front, ns);
      var own := OfNamespace(front, ns);
      if last.ns == ns {
        assert (own + [last])[..|own + [last]| - 1] == own;
      } else {
        assert OfNamespace(h, ns) == own;
      }
    }
  }

  lemma VerdictsApart(h: seq<Event>, call: Event)
    requires call.Called?
    ensures var own := OfNamespace(h, call.ns);
      Executes(h + [call], |h|) == Executes(own + [call], |own|)
  {
    var own := OfNamespace(h, call.ns);
    NamespacesApart(h, call.ns);
    assert (h + [call])[..|h|] == h;
    assert (own + [call])[..|own|] == own;
  }

  /* ---------- where it does not hold ---------- */

  // A call let through with no record clears, when its handler returns, the record made for the
  // same id in the meantime; under "allow" the next call on that id runs unchecked.
  lemma RecordLostToEarlierCall(ns: string, id: string, tools: seq<Tool>, name: string)
    requires name !in Advertised(tools)
    ensures var call := ToolCall(Some(id), Some(name));
      var h := [Called(ns, Allow, call), Answered(ns, tools, [Message(true, [Some(id)])]),
                Returned(ns, call, 0), Called(ns, Allow, call)];
      Possible(h) && GivenOnce(h, ns, Some(id), 1, 3) && Executes(h, 3) && !Offers(h, 1, Some(name))
  {
    var call := ToolCall(Some(id), Some(name));
    var message := Message(true, [Some(id)]);
    var h := [Called(ns, Allow, call), Answered(ns, tools, [message]), Returned(ns, call, 0), Called(ns, Allow, call)];
    assert h[..0] == [];
    assert Executes(h, 0);
    assert message in [message] && Some(id) in message.callIds;
    assert Stamps(h[1], ns, Some(id));
    assert h[..3][..2] == h[..2];
    assert Some(id) !in RecordOf(h[..3], ns);
  }
}
