// What injecting the defaults keeps, and when doing it twice is doing it once.
module DefaultsLaws {
  import opened PyDicts
  import opened Json
  import opened DottedPaths
  import opened DefaultsFilter

  /* ---------- explicit values of a tool ---------- */

  ghost predicate IsLeaf(j: Json) {
    j != Null && !j.Obj?
  }

  lemma {:induction false} ApartOrPrefix(p: Path, q: Path)
    ensures Apart(p, q) || p <= q || q <= p
    decreases |p|
  {
    if p[0] == q[0] && |p| > 1 && |q| > 1 {
      ApartOrPrefix(p[1..], q[1..]);
      assert p == [p[0]] + p[1..] && q == [q[0]] + q[1..];
    }
  }

  // Setting a path to a value that keeps the leaves of what was there keeps every leaf.
  lemma SetKeepsLeaf(tool: Fields, dest: Path, value: Json, leaf: Path)
    requires Get(tool, dest).Obj? && value.Obj? && IsLeaf(Get(tool, leaf))
    requires forall rest: Path :: leaf == dest + rest ==>
      Get(value.fields, rest) == Get(Get(tool, dest).fields, rest)
    ensures Get(Set(tool, dest, value), leaf) == Get(tool, leaf)
  {
    ApartOrPrefix(dest, leaf);
    if Apart(dest, leaf) {
      GetApart(tool, dest, value, leaf);
    } else if dest <= leaf {
      if dest == leaf {
      } else {
        var rest: Path := leaf[|dest|..];
        assert leaf == dest + rest;
        GetAfterSet(tool, dest, value);
        GetBelow(tool, dest, rest);
        GetBelow(Set(tool, dest, value), dest, rest);
      }
    } else {
      var rest: Path := dest[|leaf|..];
      assert dest == leaf + rest;
      GetBelow(tool, leaf, rest);
    }
  }

  lemma OverlaySetKeepsLeaf(tool: Fields, dest: Path, b: Json, leaf: Path)
    requires Get(tool, dest).Obj? && b.Obj? && IsLeaf(Get(tool, leaf))
    ensures Get(Set(tool, dest, Overlay(b, Get(tool, dest))), leaf) == Get(tool, leaf)
  {
    var t := Get(tool, dest);
    forall rest: Path | leaf == dest + rest
      ensures Get(Overlay(b, t).fields, rest) == Get(t.fields, rest)
    {
      GetBelow(tool, dest, rest);
      OverlayKeepsLeaves(b, t, rest);
    }
    SetKeepsLeaf(tool, dest, Overlay(b, t), leaf);
  }

  // One entry changes no explicit value, save the field it unions.
  lemma ApplyKeepsLeaf(basis: Fields, tool: Fields, e: Entry, isFrontMan: bool, leaf: Path)
    requires e.unionFields == [] || (e == SCHEMA_ENTRY && (isFrontMan ==> leaf != REQUIRED))
    requires IsLeaf(Get(tool, leaf)) && Apply(basis, tool, e, isFrontMan).Tool?
    ensures Get(Apply(basis, tool, e, isFrontMan).fields, leaf) == Get(tool, leaf)
  {
    var b, t := Get(basis, e.source), Get(tool, e.dest);
    if b == Null || (e.frontManOnly && !isFrontMan) {
    } else if t == Null {
      SetKeepsLeaves(tool, e.dest, b, leaf);
    } else if t.Obj? && b.Obj? {
      OverlaySetKeepsLeaf(tool, e.dest, b, leaf);
      if e.unionFields != [] {
        NotBlockedWhereRead(tool, SCHEMA);
        GetAfterSet(tool, SCHEMA, Overlay(b, t));
        UnionKeepsLeaf(Set(tool, SCHEMA, Overlay(b, t)), b, t, leaf);
      }
    }
  }

  lemma SchemaUnion(target: Fields, basis: Fields, tool: Fields)
    ensures MergeUnions(target, SCHEMA, basis, tool, ["required"]) ==
      if Unionable(basis, "required") && Unionable(tool, "required")
      then Tool(Set(target, REQUIRED, UnionField(basis, tool, "required"))) else TypeError
  {
    assert ["required"][..0] == [];
    assert SCHEMA + ["required"] == REQUIRED;
  }

  lemma UnionKeepsLeaf(target: Fields, basis: Json, tool: Json, leaf: Path)
    requires basis.Obj? && tool.Obj? && Get(target, SCHEMA) == Overlay(basis, tool)
    requires IsLeaf(Get(target, leaf)) && leaf != REQUIRED
    requires MergeUnions(target, SCHEMA, basis.fields, tool.fields, ["required"]).Tool?
    ensures Get(MergeUnions(target, SCHEMA, basis.fields, tool.fields, ["required"]).fields, leaf) == Get(target, leaf)
  {
    SchemaUnion(target, basis.fields, tool.fields);
    ApartOrPrefix(REQUIRED, leaf);
    if leaf <= REQUIRED {
      NoLeafAbove(target, leaf);
    } else if REQUIRED <= leaf {
      RequiredIsNoDictionary(basis, tool);
      NoLeafBelow(target, leaf);
    }
    GetApart(target, REQUIRED, UnionField(basis.fields, tool.fields, "required"), leaf);
  }

  lemma NoLeafAbove(target: Fields, path: Path)
    requires Get(target, SCHEMA).Obj? && path <= REQUIRED && path != REQUIRED
    ensures !IsLeaf(Get(target, path))
  {
    if |path| == 1 {
      GetBelow(target, ["function"], ["sly_data_schema"]);
      assert path == ["function"] && ["function"] + ["sly_data_schema"] == SCHEMA;
    } else {
      assert path == SCHEMA;
    }
  }

  // A field that can be united is no dictionary, so there is nothing below it.
  lemma RequiredIsNoDictionary(basis: Json, tool: Json)
    requires basis.Obj? && tool.Obj?
    requires Unionable(basis.fields, "required") && Unionable(tool.fields, "required")
    ensures !At(Overlay(basis, tool).fields, "required").Obj?
  {
  }

  lemma NoLeafBelow(target: Fields, path: Path)
    requires Get(target, SCHEMA).Obj? && !At(Get(target, SCHEMA).fields, "required").Obj?
    requires REQUIRED <= path && path != REQUIRED
    ensures Get(target, path) == Null
  {
    ReadRequired(target);
    var rest: seq<string> := path[|REQUIRED|..];
    assert rest != [] && path == REQUIRED + rest;
    GetBelow(target, REQUIRED, rest);
  }

  lemma ReadRequired(target: Fields)
    requires Get(target, SCHEMA).Obj?
    ensures Get(target, REQUIRED) == At(Get(target, SCHEMA).fields, "required")
  {
    assert SCHEMA + ["required"] == REQUIRED;
    GetBelow(target, SCHEMA, ["required"]);
  }

  lemma {:induction false} ApplyAllKeepsLeaf(basis: Fields, tool: Fields, entries: seq<Entry>, isFrontMan: bool, leaf: Path)
    requires forall e :: e in entries ==> e.unionFields == [] || e == SCHEMA_ENTRY
    requires isFrontMan ==> leaf != REQUIRED
    requires IsLeaf(Get(tool, leaf)) && ApplyAll(basis, tool, entries, isFrontMan).Tool?
    ensures Get(ApplyAll(basis, tool, entries, isFrontMan).fields, leaf) == Get(tool, leaf)
  {
    if entries != [] {
      var front := ApplyAll(basis, tool, entries[..|entries| - 1], isFrontMan);
      ApplyAllKeepsLeaf(basis, tool, entries[..|entries| - 1], isFrontMan, leaf);
      ApplyKeepsLeaf(basis, front.fields, entries[|entries| - 1], isFrontMan, leaf);
    }
  }

  // Whatever a tool says explicitly, at any depth, it still says: the only value that can change
  // is the front man's list of required fields.
  lemma ExplicitValuesKept(basis: Fields, tool: Fields, isFrontMan: bool, leaf: Path)
    requires IsLeaf(Get(tool, leaf)) && (isFrontMan ==> leaf != REQUIRED)
    requires Filtered(basis, Obj(tool), isFrontMan).Tool?
    ensures Get(Filtered(basis, Obj(tool), isFrontMan).fields, leaf) == Get(tool, leaf)
  {
    ApplyAllKeepsLeaf(basis, tool, DEFAULTS_MAPPING, isFrontMan, leaf);
  }

  /* ---------- who gets the schema ---------- */

  ghost predicate IsPlain(e: Entry) {
    |e.dest| == 1 && e.dest[0] != "function" && !e.frontManOnly && e.unionFields == []
  }

  lemma PlainEntries()
    ensures forall e :: e in PLAIN ==> IsPlain(e)
  {
  }

  lemma PlainTouchesOneKey(basis: Fields, tool: Fields, e: Entry, isFrontMan: bool)
    requires IsPlain(e)
    ensures Apply(basis, tool, e, isFrontMan).Tool?
    ensures forall k :: k != e.dest[0] ==> At(Apply(basis, tool, e, isFrontMan).fields, k) == At(tool, k)
    ensures Apply(basis, tool, e, isFrontMan).fields.Keys <= tool.Keys + {e.dest[0]}
  {
  }

  lemma {:induction false} PlainKeepsFunction(basis: Fields, tool: Fields, entries: seq<Entry>, isFrontMan: bool)
    requires forall e :: e in entries ==> IsPlain(e)
    ensures var r := ApplyAll(basis, tool, entries, isFrontMan);
      r.Tool? && At(r.fields, "function") == At(tool, "function")
  {
    if entries != [] {
      var front, last := entries[..|entries| - 1], entries[|entries| - 1];
      PlainKeepsFunction(basis, tool, front, isFrontMan);
      PlainTouchesOneKey(basis, ApplyAll(basis, tool, front, isFrontMan).fields, last, isFrontMan);
    }
  }

  lemma MappingSplits(basis: Fields, tool: Fields, isFrontMan: bool)
    ensures var plain := ApplyAll(basis, tool, PLAIN, isFrontMan);
      && plain.Tool?
      && ApplyAll(basis, tool, DEFAULTS_MAPPING, isFrontMan) == Apply(basis, plain.fields, SCHEMA_ENTRY, isFrontMan)
  {
    assert DEFAULTS_MAPPING[..|DEFAULTS_MAPPING| - 1] == PLAIN;
    PlainEntries();
    PlainKeepsFunction(basis, tool, PLAIN, isFrontMan);
  }

  // Only the first tool is given the schema: the function of any other tool is left alone.
  lemma OnlyFrontManGetsSchema(basis: Fields, tool: Fields)
    ensures var r := Filtered(basis, Obj(tool), false);
      r.Tool? && At(r.fields, "function") == At(tool, "function")
  {
    MappingSplits(basis, tool, false);
    PlainEntries();
    PlainKeepsFunction(basis, tool, PLAIN, false);
  }

  lemma SameFunctionSameSchema(a: Fields, b: Fields, path: Path)
    requires At(a, "function") == At(b, "function") && path[0] == "function"
    ensures Get(a, path) == Get(b, path)
    ensures Blocked(a, path) == Blocked(b, path)
  {
  }

  // The front man's schema is the default where it had none, and otherwise the merge, whose
  // required fields are the duplicate-free union of both, the default's first.
  lemma FrontManSchema(basis: Fields, tool: Fields)
    requires Get(basis, ["sly_data_schema"]).Obj? && Filtered(basis, Obj(tool), true).Tool?
    ensures var b, t, r := Get(basis, ["sly_data_schema"]), Get(tool, SCHEMA), Filtered(basis, Obj(tool), true).fields;
      && (t == Null ==> Get(r, SCHEMA) == if Blocked(tool, SCHEMA) then Null else b)
      && (t.Obj? ==>
            && Unionable(b.fields, "required") && Unionable(t.fields, "required")
            && Get(r, REQUIRED).List? && UnitesStably(Get(r, REQUIRED).items,
                 if "required" in b.fields then b.fields["required"].items else [],
                 if "required" in t.fields then t.fields["required"].items else [])
            && Get(r, SCHEMA).Obj?
            && Get(r, SCHEMA).fields.Keys == b.fields.Keys + t.fields.Keys + {"required"})
      && (IsLeaf(t) ==> Get(r, SCHEMA) == t)
  {
    MappingSplits(basis, tool, true);
    PlainEntries();
    PlainKeepsFunction(basis, tool, PLAIN, true);
    var plain := ApplyAll(basis, tool, PLAIN, true).fields;
    SameFunctionSameSchema(plain, tool, SCHEMA);
    var b, t := Get(basis, ["sly_data_schema"]), Get(tool, SCHEMA);
    GetAfterSet(plain, SCHEMA, b);
    if t.Obj? {
      var merged := Overlay(b, t);
      GetAfterSet(plain, SCHEMA, merged);
      NotBlockedWhereRead(plain, SCHEMA);
      var target := Set(plain, SCHEMA, merged);
      SchemaUnion(target, b.fields, t.fields);
      SetInside(target, SCHEMA, "required", UnionField(b.fields, t.fields, "required"));
      GetBelow(Set(target, REQUIRED, UnionField(b.fields, t.fields, "required")), SCHEMA, ["required"]);
      UnionIsStable(b.fields, t.fields);
      assert SCHEMA + ["required"] == REQUIRED;
    }
  }

  // No repetition, exactly the elements of both, each in the order it is first met in the first
  // and then the second.
  ghost predicate UnitesStably<T>(united: seq<T>, a: seq<T>, b: seq<T>) {
    && Distinct(united) && Elements(united) == Elements(a + b)
    && forall p, q :: 0 <= p < q < |united| ==> FirstMet(a + b, united[p]) < FirstMet(a + b, united[q])
  }

  function FirstMet<T(==)>(s: seq<T>, x: T): nat {
    if s == [] || s[0] == x then 0 else 1 + FirstMet(s[1..], x)
  }

  lemma {:induction false} FirstMetSnoc<T>(s: seq<T>, x: T, y: T)
    ensures x in s ==> FirstMet(s + [y], x) == FirstMet(s, x) < |s|
    ensures x !in s ==> FirstMet(s, x) == |s| && FirstMet(s + [x], x) == |s|
  {
    if s == [] {
      assert [] + [x] == [x] && [] + [y] == [y];
    } else {
      assert (s + [y])[1..] == s[1..] + [y] && (s + [x])[1..] == s[1..] + [x];
      assert s == [s[0]] + s[1..];
      FirstMetSnoc(s[1..], x, y);
    }
  }

  lemma DedupedMember<T>(s: seq<T>, x: T)
    ensures x in Deduped(s) <==> x in s
  {
    DedupedIs(s);
  }

  lemma {:induction false} DedupedInOrder<T>(s: seq<T>)
    ensures forall p, q :: 0 <= p < q < |Deduped(s)| ==> FirstMet(s, Deduped(s)[p]) < FirstMet(s, Deduped(s)[q])
  {
    if s != [] {
      var front, last := s[..|s| - 1], s[|s| - 1];
      var d := Deduped(front);
      assert s == front + [last];
      DedupedInOrder(front);
      forall p | 0 <= p < |d|
        ensures FirstMet(s, d[p]) == FirstMet(front, d[p]) < |front|
      {
        DedupedMember(front, d[p]);
        FirstMetSnoc(front, d[p], last);
      }
      if last !in d {
        DedupedMember(front, last);
        FirstMetSnoc(front, last, last);
        assert Deduped(s) == d + [last];
      } else {
        assert Deduped(s) == d;
      }
    }
  }

  lemma UnionIsStable(b: Fields, t: Fields)
    requires Unionable(b, "required") && Unionable(t, "required")
    ensures var united := UnionField(b, t, "required");
      united.List? && UnitesStably(united.items, if "required" in b then b["required"].items else [],
                                   if "required" in t then t["required"].items else [])
  {
    var all := FieldOf(b, "required").items + FieldOf(t, "required").items;
    DedupedIs(all);
    DedupedInOrder(all);
  }

  lemma {:induction false} NotBlockedWhereRead(fields: Fields, path: Path)
    requires Get(fields, path) != Null
    ensures !Blocked(fields, path)
    decreases |path|
  {
    if |path| > 1 {
      NotBlockedWhereRead(At(fields, path[0]).fields, path[1..]);
    }
  }

  // Setting one key of the dictionary at a path.
  lemma {:induction false} SetInside(fields: Fields, path: Path, key: string, value: Json)
    requires Get(fields, path).Obj?
    ensures Set(fields, path + [key], value) == Set(fields, path, Obj(Get(fields, path).fields[key := value]))
    ensures Get(Set(fields, path + [key], value), path) == Obj(Get(fields, path).fields[key := value])
    decreases |path|
  {
    assert (path + [key])[1..] == path[1..] + [key];
    if |path| > 1 {
      SetInside(At(fields, path[0]).fields, path[1..], key, value);
    }
  }

  /* ---------- doing it twice ---------- */

  ghost predicate Satisfied(basis: Fields, tool: Fields, e: Entry, isFrontMan: bool) {
    Apply(basis, tool, e, isFrontMan) == Tool(tool)
  }

  // What a plain entry asks of the value in the tool.
  ghost predicate Settled(b: Json, v: Json) {
    b == Null || (v != Null && Absorbed(b, v))
  }

  lemma SetAbsent(tool: Fields, k: string, v: Json)
    ensures tool[k := v] == tool <==> k in tool && tool[k] == v
  {
  }

  lemma PlainSatisfied(basis: Fields, tool: Fields, e: Entry, isFrontMan: bool)
    requires IsPlain(e)
    ensures Satisfied(basis, tool, e, isFrontMan) <==> Settled(Get(basis, e.source), At(tool, e.dest[0]))
  {
    var b, v := Get(basis, e.source), At(tool, e.dest[0]);
    AbsorbedIff(b, v);
    SetAbsent(tool, e.dest[0], b);
    SetAbsent(tool, e.dest[0], Overlay(b, v));
  }

  lemma PlainSettles(basis: Fields, tool: Fields, e: Entry, isFrontMan: bool, other: Json)
    requires IsPlain(e)
    ensures var r := Apply(basis, tool, e, isFrontMan).fields;
      && Settled(Get(basis, e.source), At(r, e.dest[0]))
      && (Settled(other, At(tool, e.dest[0])) ==> Settled(other, At(r, e.dest[0])))
  {
    var b, v := Get(basis, e.source), At(tool, e.dest[0]);
    AbsorbedBySelf(b);
    AbsorbedByOverlay(b, v);
    if Absorbed(other, v) {
      AbsorbedStays(other, b, v);
    }
  }

  lemma PlainStaysSatisfied(basis: Fields, tool: Fields, e: Entry, e': Entry, isFrontMan: bool)
    requires IsPlain(e) && IsPlain(e') && Satisfied(basis, tool, e', isFrontMan)
    ensures var r := Apply(basis, tool, e, isFrontMan);
      r.Tool? && Satisfied(basis, r.fields, e', isFrontMan) && Satisfied(basis, r.fields, e, isFrontMan)
  {
    var r := Apply(basis, tool, e, isFrontMan).fields;
    PlainTouchesOneKey(basis, tool, e, isFrontMan);
    PlainSettles(basis, tool, e, isFrontMan, Get(basis, e'.source));
    PlainSatisfied(basis, tool, e', isFrontMan);
    PlainSatisfied(basis, r, e', isFrontMan);
    PlainSatisfied(basis, r, e, isFrontMan);
  }

  lemma {:induction false} AllSatisfiedAfter(basis: Fields, tool: Fields, entries: seq<Entry>, isFrontMan: bool)
    requires forall e :: e in entries ==> IsPlain(e)
    ensures ApplyAll(basis, tool, entries, isFrontMan).Tool?
    ensures forall e :: e in entries ==> Satisfied(basis, ApplyAll(basis, tool, entries, isFrontMan).fields, e, isFrontMan)
  {
    if entries != [] {
      var front, last := entries[..|entries| - 1], entries[|entries| - 1];
      AllSatisfiedAfter(basis, tool, front, isFrontMan);
      var before := ApplyAll(basis, tool, front, isFrontMan).fields;
      PlainTouchesOneKey(basis, before, last, isFrontMan);
      PlainSettles(basis, before, last, isFrontMan, Null);
      PlainSatisfied(basis, Apply(basis, before, last, isFrontMan).fields, last, isFrontMan);
      forall e | e in front ensures Satisfied(basis, Apply(basis, before, last, isFrontMan).fields, e, isFrontMan) {
        PlainStaysSatisfied(basis, before, last, e, isFrontMan);
      }
      assert entries == front + [last];
    }
  }

  lemma {:induction false} SatisfiedChangesNothing(basis: Fields, tool: Fields, entries: seq<Entry>, isFrontMan: bool)
    requires forall e :: e in entries ==> Satisfied(basis, tool, e, isFrontMan)
    ensures ApplyAll(basis, tool, entries, isFrontMan) == Tool(tool)
  {
    if entries != [] {
      assert entries == entries[..|entries| - 1] + [entries[|entries| - 1]];
      assert Satisfied(basis, tool, entries[|entries| - 1], isFrontMan);
      SatisfiedChangesNothing(basis, tool, entries[..|entries| - 1], isFrontMan);
    }
  }

  lemma {:induction false} SetTouchesOneKey(fields: Fields, path: Path, value: Json, k: string)
    requires k != path[0]
    ensures At(Set(fields, path, value), k) == At(fields, k)
  {
  }

  lemma SchemaKeepsPlain(basis: Fields, tool: Fields, isFrontMan: bool, e: Entry)
    requires IsPlain(e) && Satisfied(basis, tool, e, isFrontMan)
    requires Apply(basis, tool, SCHEMA_ENTRY, isFrontMan).Tool?
    ensures Satisfied(basis, Apply(basis, tool, SCHEMA_ENTRY, isFrontMan).fields, e, isFrontMan)
  {
    var b, t, k := Get(basis, ["sly_data_schema"]), Get(tool, SCHEMA), e.dest[0];
    SetTouchesOneKey(tool, SCHEMA, b, k);
    if t.Obj? && b.Obj? {
      var target := Set(tool, SCHEMA, Overlay(b, t));
      SetTouchesOneKey(tool, SCHEMA, Overlay(b, t), k);
      SchemaUnion(target, b.fields, t.fields);
      if Unionable(b.fields, "required") && Unionable(t.fields, "required") {
        SetTouchesOneKey(target, REQUIRED, UnionField(b.fields, t.fields, "required"), k);
      }
    }
    PlainSatisfied(basis, tool, e, isFrontMan);
    PlainSatisfied(basis, Apply(basis, tool, SCHEMA_ENTRY, isFrontMan).fields, e, isFrontMan);
  }

  // Filtering again does nothing exactly when the schema entry does nothing again.
  lemma TwiceIsSchemaTwice(basis: Fields, tool: Fields, isFrontMan: bool)
    requires Filtered(basis, Obj(tool), isFrontMan).Tool?
    ensures var r := Filtered(basis, Obj(tool), isFrontMan).fields;
      Filtered(basis, Obj(r), isFrontMan) == Apply(basis, r, SCHEMA_ENTRY, isFrontMan)
  {
    var r := Filtered(basis, Obj(tool), isFrontMan).fields;
    PlainEntries();
    MappingSplits(basis, tool, isFrontMan);
    AllSatisfiedAfter(basis, tool, PLAIN, isFrontMan);
    forall e | e in PLAIN ensures Satisfied(basis, r, e, isFrontMan) {
      SchemaKeepsPlain(basis, ApplyAll(basis, tool, PLAIN, isFrontMan).fields, isFrontMan, e);
    }
    SatisfiedChangesNothing(basis, r, PLAIN, isFrontMan);
    MappingSplits(basis, r, isFrontMan);
  }

  // The default schema lists its required fields, without repetition.
  ghost predicate Clean(b: Fields) {
    "required" in b && Unionable(b, "required") && Distinct(b["required"].items)
  }

  // The front man has no schema and there is room to give it one.
  ghost predicate Injected(basis: Fields, tool: Fields) {
    Get(basis, ["sly_data_schema"]).Obj? && Get(tool, SCHEMA) == Null && !Blocked(tool, SCHEMA)
  }

  lemma SetRequired(r: Fields, v: Json)
    requires Get(r, SCHEMA).Obj?
    ensures Set(r, REQUIRED, v) == r <==> "required" in Get(r, SCHEMA).fields && Get(r, SCHEMA).fields["required"] == v
  {
    assert SCHEMA + ["required"] == REQUIRED;
    SetInside(r, SCHEMA, "required", v);
    SetSame(r, SCHEMA);
    SetAbsent(Get(r, SCHEMA).fields, "required", v);
  }

  lemma SchemaAgain(basis: Fields, r: Fields)
    requires Get(basis, ["sly_data_schema"]).Obj? && Get(r, SCHEMA).Obj?
    requires Absorbed(Get(basis, ["sly_data_schema"]), Get(r, SCHEMA))
    ensures var b, v := Get(basis, ["sly_data_schema"]).fields, Get(r, SCHEMA).fields;
      Satisfied(basis, r, SCHEMA_ENTRY, true) <==>
        && Unionable(b, "required") && Unionable(v, "required")
        && "required" in v && v["required"] == UnionField(b, v, "required")
  {
    var b, v := Get(basis, ["sly_data_schema"]), Get(r, SCHEMA);
    AbsorbedIff(b, v);
    SetSame(r, SCHEMA);
    SchemaUnion(r, b.fields, v.fields);
    if Unionable(b.fields, "required") && Unionable(v.fields, "required") {
      SetRequired(r, UnionField(b.fields, v.fields, "required"));
    }
  }

  lemma CleanUnion(b: Fields)
    requires Unionable(b, "required")
    ensures "required" in b && b["required"] == UnionField(b, b, "required") <==> Clean(b)
  {
    var x := FieldOf(b, "required").items;
    assert x + [] == x;
    UnionAgain(x, []);
    DedupedIs(x);
    DedupedOfSelf(x);
  }

  lemma DedupedOfSelf<T>(x: seq<T>)
    ensures Deduped(x + x) == Deduped(x)
  {
    DedupedMore(x, x);
  }

  lemma {:induction false} DedupedMore<T>(a: seq<T>, b: seq<T>)
    requires forall x :: x in b ==> x in a
    ensures Deduped(a + b) == Deduped(a)
  {
    if b == [] {
      assert a + b == a;
    } else {
      DedupedMore(a, b[..|b| - 1]);
      assert a + b == a + b[..|b| - 1] + [b[|b| - 1]];
      DedupedSnoc(a + b[..|b| - 1], b[|b| - 1]);
      DedupedIs(a);
    }
  }

  lemma MergedSchema(basis: Fields, tool: Fields)
    requires Filtered(basis, Obj(tool), true).Tool?
    requires Get(basis, ["sly_data_schema"]).Obj? && Get(tool, SCHEMA).Obj?
    ensures Satisfied(basis, Filtered(basis, Obj(tool), true).fields, SCHEMA_ENTRY, true)
  {
    MappingSplits(basis, tool, true);
    PlainEntries();
    PlainKeepsFunction(basis, tool, PLAIN, true);
    var plain := ApplyAll(basis, tool, PLAIN, true).fields;
    SameFunctionSameSchema(plain, tool, SCHEMA);
    var b, t := Get(basis, ["sly_data_schema"]), Get(tool, SCHEMA);
    var merged := Overlay(b, t);
    GetAfterSet(plain, SCHEMA, merged);
    NotBlockedWhereRead(plain, SCHEMA);
    var target := Set(plain, SCHEMA, merged);
    SchemaUnion(target, b.fields, t.fields);
    var united := UnionField(b.fields, t.fields, "required");
    assert SCHEMA + ["required"] == REQUIRED;
    SetInside(target, SCHEMA, "required", united);
    var r := Set(target, REQUIRED, united);
    assert Get(r, SCHEMA) == Obj(merged.fields["required" := united]);
    UnitedAbsorbs(b, t, united);
    UnitedAgain(b.fields, t.fields, merged.fields["required" := united]);
    SchemaAgain(basis, r);
  }

  lemma UnitedAbsorbs(b: Json, t: Json, united: Json)
    requires b.Obj? && t.Obj? && united.List? && Unionable(b.fields, "required")
    ensures Absorbed(b, Obj(Overlay(b, t).fields["required" := united]))
  {
    AbsorbedByOverlay(b, t);
    var v := Overlay(b, t).fields["required" := united];
    forall k | k in b.fields ensures k in v && Absorbed(b.fields[k], v[k]) {
      if k == "required" {
        assert b.fields[k] == FieldOf(b.fields, "required");
      }
    }
  }

  lemma UnitedAgain(b: Fields, t: Fields, v: Fields)
    requires Unionable(b, "required") && Unionable(t, "required")
    requires "required" in v && v["required"] == UnionField(b, t, "required")
    ensures Unionable(v, "required") && v["required"] == UnionField(b, v, "required")
  {
    var x, y := FieldOf(b, "required").items, FieldOf(t, "required").items;
    DedupedIs(x + y);
    UnionAgain(x, y);
    forall i | 0 <= i < |Deduped(x + y)| ensures Hashable(Deduped(x + y)[i]) {
      assert Deduped(x + y)[i] in x + y;
    }
  }

  // Filtering a tool twice is filtering it once, except for a front man that is given a schema
  // whose required fields are missing, repeated or impossible to unite; and then never.
  lemma FilteringTwice(basis: Fields, tool: Fields, isFrontMan: bool)
    requires Filtered(basis, Obj(tool), isFrontMan).Tool?
    ensures var r := Filtered(basis, Obj(tool), isFrontMan).fields;
      Filtered(basis, Obj(r), isFrontMan) == Tool(r) <==>
        !(isFrontMan && Injected(basis, tool) && !Clean(Get(basis, ["sly_data_schema"]).fields))
  {
    var r := Filtered(basis, Obj(tool), isFrontMan).fields;
    TwiceIsSchemaTwice(basis, tool, isFrontMan);
    if isFrontMan {
      MappingSplits(basis, tool, true);
      PlainEntries();
      PlainKeepsFunction(basis, tool, PLAIN, true);
      var plain := ApplyAll(basis, tool, PLAIN, true).fields;
      SameFunctionSameSchema(plain, tool, SCHEMA);
      var b := Get(basis, ["sly_data_schema"]);
      GetAfterSet(plain, SCHEMA, b);
      if b.Obj? && Get(tool, SCHEMA).Obj? {
        MergedSchema(basis, tool);
      } else if Injected(basis, tool) {
        AbsorbedBySelf(b);
        SchemaAgain(basis, r);
        if Unionable(b.fields, "required") {
          CleanUnion(b.fields);
        }
      }
    }
  }

  lemma {:induction false} SameDefaults(basis: Fields, config: Fields, tool: Fields, entries: seq<Entry>, isFrontMan: bool)
    requires forall e :: e in entries ==> Get(config, e.source) == Get(basis, e.source)
    ensures ApplyAll(config, tool, entries, isFrontMan) == ApplyAll(basis, tool, entries, isFrontMan)
  {
    if entries != [] {
      assert entries == entries[..|entries| - 1] + [entries[|entries| - 1]];
      SameDefaults(basis, config, tool, entries[..|entries| - 1], isFrontMan);
    }
  }

  // The same for a whole configuration, filtered with the defaults it still holds.
  lemma ConfigTwice(basis: Fields, config: Fields, tools: seq<Json>, filtered: seq<Json>)
    requires forall k :: k != "tools" ==> At(config, k) == At(basis, k)
    requires FiltersTo(basis, tools, filtered)
    ensures FiltersTo(config, filtered, filtered) <==>
      !(tools != [] && Injected(basis, tools[0].fields) && !Clean(Get(basis, ["sly_data_schema"]).fields))
  {
    forall i | 0 <= i < |tools|
      ensures Filtered(config, filtered[i], i == 0) == Tool(filtered[i].fields) <==>
        !(i == 0 && Injected(basis, tools[i].fields) && !Clean(Get(basis, ["sly_data_schema"]).fields))
    {
      SourcesKept(basis, config);
      SameDefaults(basis, config, filtered[i].fields, DEFAULTS_MAPPING, i == 0);
      FilteringTwice(basis, tools[i].fields, i == 0);
    }
  }

  lemma SourcesKept(basis: Fields, config: Fields)
    requires forall k :: k != "tools" ==> At(config, k) == At(basis, k)
    ensures forall e :: e in DEFAULTS_MAPPING ==> Get(config, e.source) == Get(basis, e.source)
  {
    forall e | e in DEFAULTS_MAPPING ensures e.source[0] != "tools" {}
  }
}
