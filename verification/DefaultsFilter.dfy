// Copying top-level defaults into each tool of a configuration (defaults_config_filter.py).
module DefaultsFilter {
  import opened PyDicts
  import opened Json
  import opened DottedPaths

  // Where a default is read, where it goes in a tool, and how.
  datatype Entry = Entry(source: Path, dest: Path, frontManOnly: bool, unionFields: seq<string>)

  const SCHEMA: Path := ["function", "sly_data_schema"]
  const REQUIRED: Path := ["function", "sly_data_schema", "required"]

  function Same(key: string): Entry {
    Entry([key], [key], false, [])
  }

  const PLAIN: seq<Entry> :=
    [Same("llm_config"),
     Entry(["llm_config", "verbose"], ["verbose"], false, []),
     Same("verbose"),
     Same("max_steps"),
     Same("max_iterations"),
     Same("max_execution_seconds"),
     Same("max_attempts"),
     Same("error_formatter"),
     Same("error_fragments")]

  const SCHEMA_ENTRY := Entry(["sly_data_schema"], SCHEMA, true, ["required"])

  const DEFAULTS_MAPPING := PLAIN + [SCHEMA_ENTRY]

  // Joining something that is not a list to a list, or de-duplicating a list of containers,
  // raises.
  datatype ToolResult = Tool(fields: Fields) | TypeError

  datatype ConfigResult = Config(config: Fields) | Malformed

  /* ---------- the meaning ---------- */

  predicate Hashable(j: Json) {
    !j.List? && !j.Obj?
  }

  function FieldOf(v: Fields, field: string): Json {
    if field in v then v[field] else List([])
  }

  // A field that a union can take: absent, or a list of leaves.
  predicate Unionable(v: Fields, field: string) {
    FieldOf(v, field).List? && forall i :: 0 <= i < |FieldOf(v, field).items| ==> Hashable(FieldOf(v, field).items[i])
  }

  function UnionField(basis: Fields, tool: Fields, field: string): Json
    requires Unionable(basis, field) && Unionable(tool, field)
  {
    List(Deduped(FieldOf(basis, field).items + FieldOf(tool, field).items))
  }

  function MergeUnions(target: Fields, dest: Path, basis: Fields, tool: Fields, fields: seq<string>): ToolResult {
    if fields == [] then Tool(target)
    else
      var front, last := MergeUnions(target, dest, basis, tool, fields[..|fields| - 1]), fields[|fields| - 1];
      if front.TypeError? || !Unionable(basis, last) || !Unionable(tool, last) then TypeError
      else Tool(Set(front.fields, dest + [last], UnionField(basis, tool, last)))
  }

  function Apply(basis: Fields, tool: Fields, e: Entry, isFrontMan: bool): ToolResult {
    var b := Get(basis, e.source);
    if b == Null || (e.frontManOnly && !isFrontMan) then Tool(tool)
    else
      var t := Get(tool, e.dest);
      if t == Null then Tool(Set(tool, e.dest, b))
      else if t.Obj? && b.Obj? then
        MergeUnions(Set(tool, e.dest, Overlay(b, t)), e.dest, b.fields, t.fields, e.unionFields)
      else Tool(tool)
  }

  function ApplyAll(basis: Fields, tool: Fields, entries: seq<Entry>, isFrontMan: bool): ToolResult {
    if entries == [] then Tool(tool)
    else
      var front := ApplyAll(basis, tool, entries[..|entries| - 1], isFrontMan);
      if front.TypeError? then TypeError
      else Apply(basis, front.fields, entries[|entries| - 1], isFrontMan)
  }

  function Filtered(basis: Fields, tool: Json, isFrontMan: bool): ToolResult {
    if tool.Obj? then ApplyAll(basis, tool.fields, DEFAULTS_MAPPING, isFrontMan) else TypeError
  }

  /* ---------- the program ---------- */

  method MergeDictionaries(tool: Fields, dest: Path, basisValue: Json, toolValue: Json, unionFields: seq<string>)
    returns (result: ToolResult)
    requires basisValue.Obj? && toolValue.Obj?
    ensures result == MergeUnions(Set(tool, dest, Overlay(basisValue, toolValue)), dest, basisValue.fields, toolValue.fields, unionFields)
  {
    var merged := SetToolValue(tool, dest, Overlay(basisValue, toolValue));
    ghost var start := merged;
    for i := 0 to |unionFields|
      invariant MergeUnions(start, dest, basisValue.fields, toolValue.fields, unionFields[..i]) == Tool(merged)
    {
      var field := unionFields[i];
      assert unionFields[..i + 1][..i] == unionFields[..i];
      if !Unionable(basisValue.fields, field) || !Unionable(toolValue.fields, field) {
        FailedUnionStays(start, dest, basisValue.fields, toolValue.fields, unionFields, i + 1);
        return TypeError;
      }
      merged := SetToolValue(merged, dest + [field], UnionField(basisValue.fields, toolValue.fields, field));
    }
    assert unionFields[..|unionFields|] == unionFields;
    return Tool(merged);
  }

  lemma {:induction false} FailedUnionStays(target: Fields, dest: Path, basis: Fields, tool: Fields, fields: seq<string>, n: nat)
    requires n <= |fields| && MergeUnions(target, dest, basis, tool, fields[..n]).TypeError?
    ensures MergeUnions(target, dest, basis, tool, fields).TypeError?
  {
    if n < |fields| {
      assert fields[..|fields| - 1][..n] == fields[..n];
      FailedUnionStays(target, dest, basis, tool, fields[..|fields| - 1], n);
    } else {
      assert fields[..n] == fields;
    }
  }

  // One entry of the mapping.
  method FilterEntry(basis: Fields, tool: Fields, e: Entry, isFrontMan: bool) returns (result: ToolResult)
    ensures result == Apply(basis, tool, e, isFrontMan)
  {
    var basisValue := Get(basis, e.source);
    if basisValue == Null || (e.frontManOnly && !isFrontMan) {
      return Tool(tool);
    }
    var toolValue := Get(tool, e.dest);
    if toolValue == Null {
      var fields := SetToolValue(tool, e.dest, basisValue);
      return Tool(fields);
    } else if toolValue.Obj? && basisValue.Obj? {
      result := MergeDictionaries(tool, e.dest, basisValue, toolValue, e.unionFields);
    } else {
      return Tool(tool);
    }
  }

  // The inner loop of filter_config: one tool, every entry of the mapping in order.
  method FilterTool(basis: Fields, tool: Fields, isFrontMan: bool) returns (result: ToolResult)
    ensures result == ApplyAll(basis, tool, DEFAULTS_MAPPING, isFrontMan)
  {
    var fields := tool;
    for i := 0 to |DEFAULTS_MAPPING|
      invariant ApplyAll(basis, tool, DEFAULTS_MAPPING[..i], isFrontMan) == Tool(fields)
    {
      var e := DEFAULTS_MAPPING[i];
      assert DEFAULTS_MAPPING[..i + 1][..i] == DEFAULTS_MAPPING[..i];
      var next := FilterEntry(basis, fields, e, isFrontMan);
      if next.TypeError? {
        FailedEntryStays(basis, tool, DEFAULTS_MAPPING, isFrontMan, i + 1);
        return TypeError;
      }
      fields := next.fields;
    }
    assert DEFAULTS_MAPPING[..|DEFAULTS_MAPPING|] == DEFAULTS_MAPPING;
    return Tool(fields);
  }

  lemma {:induction false} FailedEntryStays(basis: Fields, tool: Fields, entries: seq<Entry>, isFrontMan: bool, n: nat)
    requires n <= |entries| && ApplyAll(basis, tool, entries[..n], isFrontMan).TypeError?
    ensures ApplyAll(basis, tool, entries, isFrontMan).TypeError?
  {
    if n < |entries| {
      assert entries[..|entries| - 1][..n] == entries[..n];
      FailedEntryStays(basis, tool, entries[..|entries| - 1], isFrontMan, n);
    } else {
      assert entries[..n] == entries;
    }
  }

  // None, or a value of length zero.
  predicate NoTools(j: Json) {
    j == Null || j == List([]) || j == Obj(map[]) || j == Str("")
  }

  // Every tool is filtered, and the first one in the list is taken to be the front man.
  ghost predicate FiltersTo(basis: Fields, tools: seq<Json>, filtered: seq<Json>) {
    |filtered| == |tools| &&
    forall i :: 0 <= i < |tools| ==>
      filtered[i].Obj? && Filtered(basis, tools[i], i == 0) == Tool(filtered[i].fields)
  }

  method FilterConfig(basis: Fields) returns (result: ConfigResult)
    ensures At(basis, "tools") in [Null, List([]), Obj(map[]), Str("")] ==> result == Config(basis)
    ensures At(basis, "tools").List? && At(basis, "tools").items != [] ==>
      match result
      case Config(config) =>
        && config.Keys == basis.Keys
        && (forall k :: k in basis && k != "tools" ==> config[k] == basis[k])
        && config["tools"].List? && FiltersTo(basis, basis["tools"].items, config["tools"].items)
      case Malformed =>
        exists i :: 0 <= i < |basis["tools"].items| && Filtered(basis, basis["tools"].items[i], i == 0).TypeError?
    ensures At(basis, "tools") !in [Null, List([]), Obj(map[]), Str("")] && !At(basis, "tools").List? ==>
      result == Malformed
  {
    if NoTools(At(basis, "tools")) {
      return Config(basis);
    }
    if !basis["tools"].List? {
      return Malformed;
    }
    var tools := basis["tools"].items;
    var useTools: seq<Json> := [];
    for i := 0 to |tools|
      invariant |useTools| == i
      invariant forall k :: 0 <= k < i ==>
        useTools[k].Obj? && Filtered(basis, tools[k], k == 0) == Tool(useTools[k].fields)
    {
      if !tools[i].Obj? {
        return Malformed;
      }
      var filtered := FilterTool(basis, tools[i].fields, i == 0);
      if filtered.TypeError? {
        return Malformed;
      }
      useTools := useTools + [Obj(filtered.fields)];
    }
    return Config(basis["tools" := List(useTools)]);
  }
}
