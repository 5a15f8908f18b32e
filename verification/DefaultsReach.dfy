// Which defaults reach a tool, and what becomes of each, with the keys written out.
module DefaultsReach {
  import opened PyDicts
  import opened Json
  import opened DottedPaths
  import opened DefaultsFilter
  import opened DefaultsLaws

  // What a key of the tool reads after these plain entries.
  function Filled(basis: Fields, entries: seq<Entry>, key: string, t: Json): Json {
    if entries == [] then t
    else
      var v, e := Filled(basis, entries[..|entries| - 1], key, t), entries[|entries| - 1];
      var b := Get(basis, e.source);
      if e.dest != [key] || b == Null then v
      else if v == Null then b
      else if v.Obj? && b.Obj? then Overlay(b, v)
      else v
  }

  lemma {:induction false} PlainFills(basis: Fields, tool: Fields, entries: seq<Entry>, isFrontMan: bool, key: string)
    requires forall e :: e in entries ==> IsPlain(e)
    ensures var r := ApplyAll(basis, tool, entries, isFrontMan);
      r.Tool? && At(r.fields, key) == Filled(basis, entries, key, At(tool, key))
  {
    if entries != [] {
      var front, last := entries[..|entries| - 1], entries[|entries| - 1];
      PlainFills(basis, tool, front, isFrontMan, key);
      PlainTouchesOneKey(basis, ApplyAll(basis, tool, front, isFrontMan).fields, last, isFrontMan);
      assert last.dest == [last.dest[0]];
    }
  }

  // The entries from the n-th on go elsewhere.
  lemma {:induction false} ElsewhereFrom(basis: Fields, entries: seq<Entry>, n: nat, key: string, t: Json)
    requires n <= |entries| && forall i :: n <= i < |entries| ==> entries[i].dest != [key]
    ensures Filled(basis, entries, key, t) == Filled(basis, entries[..n], key, t)
    decreases |entries|
  {
    if n < |entries| {
      var front := entries[..|entries| - 1];
      ElsewhereFrom(basis, front, n, key, t);
      assert front[..n] == entries[..n];
    } else {
      assert entries[..n] == entries;
    }
  }

  // Only the i-th entry goes there.
  lemma FilledOnce(basis: Fields, entries: seq<Entry>, i: nat, key: string, t: Json)
    requires i < |entries| && entries[i].dest == [key]
    requires forall j :: 0 <= j < |entries| && j != i ==> entries[j].dest != [key]
    ensures var b := Get(basis, entries[i].source);
      Filled(basis, entries, key, t) ==
        if b == Null then t else if t == Null then b else if t.Obj? && b.Obj? then Overlay(b, t) else t
  {
    ElsewhereFrom(basis, entries, i + 1, key, t);
    assert entries[..i + 1][..i] == entries[..i];
    ElsewhereFrom(basis, entries[..i], 0, key, t);
    assert entries[..i][..0] == [];
  }

  lemma SchemaTouchesFunction(basis: Fields, tool: Fields, isFrontMan: bool, key: string)
    requires key != "function" && Apply(basis, tool, SCHEMA_ENTRY, isFrontMan).Tool?
    ensures At(Apply(basis, tool, SCHEMA_ENTRY, isFrontMan).fields, key) == At(tool, key)
  {
    var b, t := Get(basis, ["sly_data_schema"]), Get(tool, SCHEMA);
    SetTouchesOneKey(tool, SCHEMA, b, key);
    if t.Obj? && b.Obj? {
      var target := Set(tool, SCHEMA, Overlay(b, t));
      SetTouchesOneKey(tool, SCHEMA, Overlay(b, t), key);
      SchemaUnion(target, b.fields, t.fields);
      if Unionable(b.fields, "required") && Unionable(t.fields, "required") {
        SetTouchesOneKey(target, REQUIRED, UnionField(b.fields, t.fields, "required"), key);
      }
    }
  }

  lemma FilteredAt(basis: Fields, tool: Fields, isFrontMan: bool, key: string)
    requires key != "function" && Filtered(basis, Obj(tool), isFrontMan).Tool?
    ensures At(Filtered(basis, Obj(tool), isFrontMan).fields, key) == Filled(basis, PLAIN, key, At(tool, key))
  {
    MappingSplits(basis, tool, isFrontMan);
    PlainEntries();
    PlainFills(basis, tool, PLAIN, isFrontMan, key);
    SchemaTouchesFunction(basis, ApplyAll(basis, tool, PLAIN, isFrontMan).fields, isFrontMan, key);
  }

  // Each of these defaults reaches every tool under its own key: whole where the tool has
  // nothing, merged underneath where both are dictionaries, and not at all otherwise.
  lemma OwnKeyReached(basis: Fields, tool: Fields, isFrontMan: bool, key: string)
    requires key in ["llm_config", "max_steps", "max_iterations", "max_execution_seconds", "max_attempts",
                     "error_formatter", "error_fragments"]
    requires Filtered(basis, Obj(tool), isFrontMan).Tool?
    ensures var b, t, r := At(basis, key), At(tool, key), Filtered(basis, Obj(tool), isFrontMan).fields;
      && (t == Null ==> At(r, key) == b)
      && (t.Obj? && b.Obj? ==> At(r, key) == Overlay(b, t))
      && (t != Null && !(t.Obj? && b.Obj?) ==> At(r, key) == t)
  {
    FilteredAt(basis, tool, isFrontMan, key);
    var i := if key == "llm_config" then 0 else if key == "max_steps" then 3 else if key == "max_iterations" then 4
             else if key == "max_execution_seconds" then 5 else if key == "max_attempts" then 6
             else if key == "error_formatter" then 7 else 8;
    assert PLAIN[i].dest == [key] && PLAIN[i].source == [key];
    FilledOnce(basis, PLAIN, i, key, At(tool, key));
  }

  // llm_config.verbose fills "verbose" before the top-level verbose does.
  lemma VerboseReached(basis: Fields, tool: Fields, isFrontMan: bool)
    requires Filtered(basis, Obj(tool), isFrontMan).Tool?
    ensures var llm, top, t := Get(basis, ["llm_config", "verbose"]), At(basis, "verbose"), At(tool, "verbose");
      var r := At(Filtered(basis, Obj(tool), isFrontMan).fields, "verbose");
      && (t == Null && llm == Null ==> r == top)
      && (t == Null && llm != Null ==> r == if llm.Obj? && top.Obj? then Overlay(top, llm) else llm)
      && (t != Null && !t.Obj? ==> r == t)
      && (t.Obj? ==>
            var v := if llm.Obj? then Overlay(llm, t) else t;
            r == if top.Obj? then Overlay(top, v) else v)
  {
    var t := At(tool, "verbose");
    FilteredAt(basis, tool, isFrontMan, "verbose");
    ElsewhereFrom(basis, PLAIN, 3, "verbose", t);
    FilledOnce(basis, PLAIN[..2], 1, "verbose", t);
    assert PLAIN[..3][..2] == PLAIN[..2];
    assert PLAIN[..3][2].source == ["verbose"] && PLAIN[..3][2].dest == ["verbose"];
  }

  // No other key of the tool is touched, save the function of the front man.
  lemma OthersUntouched(basis: Fields, tool: Fields, isFrontMan: bool, key: string)
    requires key !in ["llm_config", "verbose", "max_steps", "max_iterations", "max_execution_seconds", "max_attempts",
                      "error_formatter", "error_fragments", "function"]
    requires Filtered(basis, Obj(tool), isFrontMan).Tool?
    ensures At(Filtered(basis, Obj(tool), isFrontMan).fields, key) == At(tool, key)
  {
    FilteredAt(basis, tool, isFrontMan, key);
    ElsewhereFrom(basis, PLAIN, 0, key, At(tool, key));
    assert PLAIN[..0] == [];
  }

  // The front man's function: without a default schema, or against one that is no dictionary.
  lemma SchemaReached(basis: Fields, tool: Fields)
    requires Filtered(basis, Obj(tool), true).Tool? && !Get(basis, ["sly_data_schema"]).Obj?
    ensures var b, t, r := At(basis, "sly_data_schema"), Get(tool, SCHEMA), Filtered(basis, Obj(tool), true).fields;
      && (b == Null || t != Null || Blocked(tool, SCHEMA) ==> At(r, "function") == At(tool, "function"))
      && (b != Null && t == Null && !Blocked(tool, SCHEMA) ==> Get(r, ["function", "sly_data_schema"]) == b)
  {
    MappingSplits(basis, tool, true);
    PlainEntries();
    PlainKeepsFunction(basis, tool, PLAIN, true);
    var plain := ApplyAll(basis, tool, PLAIN, true).fields;
    SameFunctionSameSchema(plain, tool, SCHEMA);
    GetAfterSet(plain, SCHEMA, Get(basis, ["sly_data_schema"]));
  }

  // A required list, where there is one, of things a union can take.
  predicate Lists(schema: Fields) {
    "required" in schema ==>
      && schema["required"].List?
      && (forall i :: 0 <= i < |schema["required"].items| ==>
            !schema["required"].items[i].List? && !schema["required"].items[i].Obj?)
  }

  // Filtering a tool fails exactly when it is no dictionary, or when it is the front man and its
  // schema and the default one are dictionaries whose required fields cannot be united.
  lemma FailsExactly(basis: Fields, tool: Json, isFrontMan: bool)
    ensures Filtered(basis, tool, isFrontMan).TypeError? <==>
      !tool.Obj? ||
      (var b, t := At(basis, "sly_data_schema"), Get(tool.fields, ["function", "sly_data_schema"]);
       isFrontMan && b.Obj? && t.Obj? && !(Lists(b.fields) && Lists(t.fields)))
  {
    if tool.Obj? {
      MappingSplits(basis, tool.fields, isFrontMan);
      PlainEntries();
      PlainKeepsFunction(basis, tool.fields, PLAIN, isFrontMan);
      var plain := ApplyAll(basis, tool.fields, PLAIN, isFrontMan).fields;
      SameFunctionSameSchema(plain, tool.fields, SCHEMA);
      var b, t := At(basis, "sly_data_schema"), Get(tool.fields, SCHEMA);
      if isFrontMan && b.Obj? && t.Obj? {
        SchemaUnion(Set(plain, SCHEMA, Overlay(b, t)), b.fields, t.fields);
      }
    }
  }
}
