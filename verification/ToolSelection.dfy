// Enforcement of the tool selection at execution time
// (llm_config_tool_selector_middleware.py): which tool names were advertised with each tool
// call is recorded, and a tool call with an unadvertised name is denied.
module ToolSelection {
  import opened PyDicts

  // A tool as the narrowed request lists it: an object with a name, or a provider's dict with
  // the name at its top or inside "function" (None when "function" is not a dict).
  datatype Tool =
    | ToolObject(name: Option<string>)
    | ToolDict(name: Option<string>, function_: Option<Option<string>>)

  // A message of the model's response with the ids of its tool calls; a provider may omit an id.
  datatype Message = Message(isAi: bool, callIds: seq<Option<string>>)

  datatype ToolCall = ToolCall(id: Option<string>, name: Option<string>)

  datatype Policy = Allow | Deny

  datatype Denial = NothingRecorded | NotAmong(advertised: seq<string>)

  // Tool call id -> the names advertised on the model call that produced it.
  type Record = map<Option<string>, seq<string>>

  function NameOf(tool: Tool): Option<string> {
    match tool
    case ToolObject(name) => name
    case ToolDict(name, inner) => if name.None? && inner.Some? then inner.value else name
  }

  function Advertised(tools: seq<Tool>): seq<string> {
    if tools == [] then []
    else
      var name := NameOf(tools[|tools| - 1]);
      Advertised(tools[..|tools| - 1]) + if name.Some? then [name.value] else []
  }

  // The ids of the tool calls a response carries.
  function EmittedIds(messages: seq<Message>): set<Option<string>> {
    set m, id | m in messages && m.isAi && id in m.callIds :: id
  }

  function Stamped(record: Record, ids: set<Option<string>>, names: seq<string>): Record {
    map id | id in record.Keys + ids :: if id in ids then names else record[id]
  }

  lemma StampedOne(record: Record, ids: set<Option<string>>, id: Option<string>, names: seq<string>)
    ensures Stamped(record, ids + {id}, names) == Stamped(record, ids, names)[id := names]
  {
  }

  lemma StampedTwice(record: Record, a: set<Option<string>>, b: set<Option<string>>, names: seq<string>)
    ensures Stamped(Stamped(record, a, names), b, names) == Stamped(record, a + b, names)
  {
  }

  lemma EmittedLast(messages: seq<Message>, last: Message)
    ensures EmittedIds(messages + [last]) ==
      EmittedIds(messages) + if last.isAi then Elements(last.callIds) else {}
  {
    forall id
      ensures id in EmittedIds(messages + [last]) <==>
        id in EmittedIds(messages) || (last.isAi && id in last.callIds)
    {
      assert last in messages + [last];
      if id in EmittedIds(messages) {
        var m :| m in messages && m.isAi && id in m.callIds;
        assert m in messages + [last];
      }
    }
  }

  lemma StampedMessage(record: Record, messages: seq<Message>, i: nat, names: seq<string>)
    requires i < |messages|
    ensures var sofar := Stamped(record, EmittedIds(messages[..i]), names);
      Stamped(record, EmittedIds(messages[..i + 1]), names) ==
        if messages[i].isAi then Stamped(sofar, Elements(messages[i].callIds), names) else sofar
  {
    EmittedLast(messages[..i], messages[i]);
    assert messages[..i + 1] == messages[..i] + [messages[i]];
    StampedTwice(record, EmittedIds(messages[..i]), Elements(messages[i].callIds), names);
    assert EmittedIds(messages[..i]) + {} == EmittedIds(messages[..i]);
  }

  function Denies(policy: Policy, record: Record, call: ToolCall): Option<Denial> {
    if call.id !in record then
      if policy == Allow then None else Some(NothingRecorded)
    else if call.name.Some? && call.name.value in record[call.id] then None
    else Some(NotAmong(record[call.id]))
  }

  /* ---------- the program ---------- */

  // The dict one namespace keeps in sly_data.
  class AdvertisedTools {
    var calls: Record

    constructor ()
      ensures calls == map[]
    {
      calls := map[];
    }
  }

  // The part of sly_data the middleware keeps: namespace -> dict.
  class SlyData {
    var perRequest: map<string, AdvertisedTools>

    constructor ()
      ensures perRequest == map[]
    {
      perRequest := map[];
    }
  }

  class LlmConfigToolSelectorMiddleware {
    const advertisedTools: AdvertisedTools
    const unadvertisedPolicy: Policy

    constructor (table: AdvertisedTools, policy: Policy)
      ensures advertisedTools == table && unadvertisedPolicy == policy
    {
      advertisedTools, unadvertisedPolicy := table, policy;
    }

    method StampAdvertisedTools(tools: seq<Tool>, messages: seq<Message>)
      modifies advertisedTools
      ensures advertisedTools.calls == Stamped(old(advertisedTools.calls), EmittedIds(messages), Advertised(tools))
      ensures forall m, id :: m in messages && m.isAi && id in m.callIds ==>
        id in advertisedTools.calls && advertisedTools.calls[id] == Advertised(tools)
      ensures forall id :: (forall m :: m in messages && m.isAi ==> id !in m.callIds) ==>
        (id in advertisedTools.calls <==> id in old(advertisedTools.calls)) &&
        (id in old(advertisedTools.calls) ==> advertisedTools.calls[id] == old(advertisedTools.calls)[id])
    {
      var advertised := AdvertisedNames(tools);
      ghost var before := advertisedTools.calls;
      for i := 0 to |messages|
        invariant advertisedTools.calls == Stamped(before, EmittedIds(messages[..i]), advertised)
      {
        var message := messages[i];
        StampedMessage(before, messages, i, advertised);
        if message.isAi {
          StampEach(message.callIds, advertised);
        }
      }
      assert messages[..|messages|] == messages;
    }

    // The inner loop.
    method StampEach(ids: seq<Option<string>>, advertised: seq<string>)
      modifies advertisedTools
      ensures advertisedTools.calls == Stamped(old(advertisedTools.calls), Elements(ids), advertised)
    {
      ghost var before := advertisedTools.calls;
      for i := 0 to |ids|
        invariant advertisedTools.calls == Stamped(before, Elements(ids[..i]), advertised)
      {
        advertisedTools.calls := advertisedTools.calls[ids[i] := advertised];
        StampedOne(before, Elements(ids[..i]), ids[i], advertised);
        assert ids[..i + 1] == ids[..i] + [ids[i]];
        ElementsAppend(ids[..i], ids[i]);
      }
      assert ids[..|ids|] == ids;
    }

    // None lets the call through.
    method DenyUnadvertisedToolCall(call: ToolCall) returns (denial: Option<Denial>)
      ensures denial == Denies(unadvertisedPolicy, advertisedTools.calls, call)
      ensures denial == Some(NothingRecorded) <==> call.id !in advertisedTools.calls && unadvertisedPolicy == Deny
      ensures denial.Some? && call.id in advertisedTools.calls ==>
        denial == Some(NotAmong(advertisedTools.calls[call.id]))
      ensures call.id in advertisedTools.calls ==>
        (denial.None? <==> call.name.Some? && call.name.value in advertisedTools.calls[call.id])
      ensures denial.None? && unadvertisedPolicy == Deny ==>
        call.id in advertisedTools.calls && call.name.Some? && call.name.value in advertisedTools.calls[call.id]
    {
      if call.id !in advertisedTools.calls {
        if unadvertisedPolicy == Allow {
          return None;
        }
        return Some(NothingRecorded);
      }
      var advertised := advertisedTools.calls[call.id];
      if call.name.Some? && call.name.value in advertised {
        return None;
      }
      return Some(NotAmong(advertised));
    }

    // What follows a handler that returned.
    method CleanUp(call: ToolCall)
      modifies advertisedTools
      ensures advertisedTools.calls == if call.id.Some? then old(advertisedTools.calls) - {call.id}
                                       else old(advertisedTools.calls)
    {
      if call.id.Some? {
        advertisedTools.calls := advertisedTools.calls - {call.id};
      }
    }
  }

  method AdvertisedNames(tools: seq<Tool>) returns (advertised: seq<string>)
    ensures advertised == Advertised(tools)
    ensures forall name :: name in advertised <==> exists t :: t in tools && Carries(t, name)
    ensures |advertised| <= |tools|
  {
    advertised := [];
    for i := 0 to |tools|
      invariant advertised == Advertised(tools[..i])
    {
      assert tools[..i + 1][..i] == tools[..i];
      var tool := tools[i];
      var name: Option<string>;
      if tool.ToolDict? {
        name := tool.name;
        if name.None? && tool.function_.Some? {
          name := tool.function_.value;
        }
      } else {
        name := tool.name;
      }
      if name.Some? {
        advertised := advertised + [name.value];
      }
      assert NameOf(tool) == name;
      assert advertised + [] == advertised;
    }
    assert tools[..|tools|] == tools;
    AdvertisedAre(tools);
  }

  // The tool has this name: its own, or for a dict without one, that inside "function".
  predicate Carries(tool: Tool, name: string) {
    match tool
    case ToolObject(own) => own == Some(name)
    case ToolDict(top, inner) => top == Some(name) || (top == None && inner == Some(Some(name)))
  }

  lemma {:induction false} AdvertisedAre(tools: seq<Tool>)
    ensures |Advertised(tools)| <= |tools|
    ensures forall name :: name in Advertised(tools) <==> exists t :: t in tools && Carries(t, name)
  {
    if tools != [] {
      var front, last := tools[..|tools| - 1], tools[|tools| - 1];
      AdvertisedAre(front);
      assert tools == front + [last];
      forall name
        ensures name in Advertised(tools) <==> exists t :: t in tools && Carries(t, name)
      {
        OneMoreNamed(front, last, name);
      }
    }
  }

  lemma OneMoreNamed(front: seq<Tool>, last: Tool, name: string)
    ensures (exists t :: t in front + [last] && Carries(t, name)) <==>
      (exists t :: t in front && Carries(t, name)) || NameOf(last) == Some(name)
  {
    if t :| t in front && Carries(t, name) {
      assert t in front + [last];
    }
    if NameOf(last) == Some(name) {
      assert last in front + [last];
    }
  }

  // _initialize_enforcement: a policy that is neither "allow" nor "deny" is refused before
  // sly_data is touched; otherwise the dict of the namespace is found or made.  An empty origin
  // counts as none; `own` is the "instance-" name of the instance.
  method InitializeEnforcement(slyData: SlyData?, originStr: string, own: string, policy: string)
    returns (made: Option<LlmConfigToolSelectorMiddleware>)
    modifies slyData
    ensures made.Some? <==> policy == "allow" || policy == "deny"
    ensures made.Some? ==> fresh(made.value)
    ensures made.Some? ==> (made.value.unadvertisedPolicy == Deny <==> policy == "deny")
    ensures made.None? && slyData != null ==> slyData.perRequest == old(slyData.perRequest)
    ensures made.Some? && slyData == null ==>
      fresh(made.value.advertisedTools) && made.value.advertisedTools.calls == map[]
    ensures made.Some? && slyData != null ==>
      var ns := if originStr != "" then originStr else own;
      && slyData.perRequest == old(slyData.perRequest)[ns := made.value.advertisedTools]
      && (if ns in old(slyData.perRequest) then made.value.advertisedTools == old(slyData.perRequest[ns])
          else fresh(made.value.advertisedTools) && made.value.advertisedTools.calls == map[])
  {
    if policy != "allow" && policy != "deny" {
      return None;
    }
    var holder: SlyData;
    if slyData != null {
      holder := slyData;
    } else {
      holder := new SlyData();
    }
    var ns := if originStr != "" then originStr else own;
    var table: AdvertisedTools;
    if ns in holder.perRequest {
      table := holder.perRequest[ns];
    } else {
      table := new AdvertisedTools();
    }
    holder.perRequest := holder.perRequest[ns := table];
    var it := new LlmConfigToolSelectorMiddleware(table, if policy == "deny" then Deny else Allow);
    made := Some(it);
  }
}
