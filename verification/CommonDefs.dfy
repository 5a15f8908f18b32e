// JSON-like configuration values, as Python holds them.
module Json {
  datatype Json =
    | Null
    | Bool(b: bool)
    | Num(n: int)
    | Str(s: string)
    | List(items: seq<Json>)
    | Obj(fields: map<string, Json>)
}

// Substitution of common definitions: every string value that names an entry of the
// replacement table becomes that entry (abstract_common_defs_config_filter.py and
// dictionary_common_defs_config_filter.py).
module CommonDefs {
  import opened PyDicts
  import opened Json

  type Table = map<string, Json>

  datatype Result = Config(config: map<string, Json>) | Malformed

  /* ---------- the meaning ---------- */

  predicate Replaced(s: string, r: Table) {
    s in r && r[s] != Null
  }

  // Whole-value substitution at the string leaves; keys are not touched.
  function Sub(j: Json, r: Table): Json
    decreases j
  {
    match j
    case Str(s) => if Replaced(s, r) then r[s] else j
    case List(items) => List(seq(|items|, i requires 0 <= i < |items| => Sub(items[i], r)))
    case Obj(fields) => Obj(map k | k in fields :: Sub(fields[k], r))
    case _ => j
  }

  // The table with its own entries substituted into its values, once.
  function SelfSubstituted(r: Table): Table {
    map k | k in r :: Sub(r[k], r)
  }

  function Passes(n: nat, j: Json, r: Table): Json {
    if n == 0 then j else Passes(n - 1, Sub(j, r), r)
  }

  /* ---------- the program ---------- */

  method MakeReplacements(source: Json, r: Table) returns (value: Json)
    requires !source.List? && !source.Obj?
    ensures value == Sub(source, r)
  {
    if !source.Str? {
      return source;
    }
    if source.s !in r || r[source.s] == Null {
      return source;
    }
    return r[source.s];
  }

  method FilterOne(value: Json, r: Table) returns (replacement: Json)
    ensures replacement == Sub(value, r)
    decreases value, 1
  {
    match value {
      case Obj(fields) =>
        var newDict := FilterOneDict(value, r);
        replacement := Obj(newDict);
      case List(items) =>
        var newList := FilterOneList(value, r);
        replacement := List(newList);
      case _ =>
        replacement := MakeReplacements(value, r);
    }
  }

  method FilterOneDict(source: Json, r: Table) returns (newDict: map<string, Json>)
    requires source.Obj?
    ensures Obj(newDict) == Sub(source, r)
    decreases source, 0
  {
    newDict := source.fields;
    var keys := source.fields.Keys;
    while keys != {}
      invariant keys <= source.fields.Keys == newDict.Keys
      invariant forall k :: k in source.fields ==>
        newDict[k] == if k in keys then source.fields[k] else Sub(source.fields[k], r)
      decreases keys
    {
      var key :| key in keys;
      var value := source.fields[key];
      var replacement := FilterOne(value, r);
      if replacement != Null {
        newDict := newDict[key := replacement];
      } else {
        NullOnlyFromNull(value, r);
      }
      keys := keys - {key};
    }
  }

  method FilterOneList(source: Json, r: Table) returns (newList: seq<Json>)
    requires source.List?
    ensures List(newList) == Sub(source, r)
    decreases source, 0
  {
    newList := [];
    for i := 0 to |source.items|
      invariant |newList| == i
      invariant forall k :: 0 <= k < i ==> newList[k] == Sub(source.items[k], r)
    {
      var replacement := FilterOne(source.items[i], r);
      newList := newList + [replacement];
    }
  }

  lemma NullOnlyFromNull(j: Json, r: Table)
    ensures Sub(j, r) == Null <==> j == Null
  {
  }

  // What Python takes for false.
  predicate Falsy(j: Json) {
    j == Null || j == Bool(false) || j == Num(0) || j == Str("") || j == List([]) || j == Obj(map[])
  }

  function CommonDefsOf(basis: map<string, Json>): Json {
    if "commondefs" in basis then basis["commondefs"] else Obj(map[])
  }

  // What a table is updated with; an empty list or string is as good as an empty dictionary.
  predicate Updates(j: Json) {
    j.Obj? || j == List([]) || j == Str("")
  }

  // The starting table is updated with the config's own definitions, which win; where that leaves
  // anything, the tools are given two passes with it.  Raises unless commondefs is a dictionary or
  // falsy, what is under the key can update a table, and the tools are a list when needed.
  method FilterConfig(basis: map<string, Json>, key: string, starting: Table) returns (result: Result)
    ensures basis == map[] ==> result == Config(basis)
    ensures basis != map[] ==>
      var c := if "commondefs" in basis then basis["commondefs"] else Obj(map[]);
      var own := if c.Obj? && key in c.fields then c.fields[key] else Null;
      var table := if own.Obj? then starting + own.fields else starting;
      && (result == Malformed <==>
            || !(c.Obj? || c in [Null, Bool(false), Num(0), Str(""), List([])])
            || (c.Obj? && key in c.fields && !(own.Obj? || own == List([]) || own == Str("")))
            || (table != map[] && ("tools" !in basis || !basis["tools"].List?)))
      && (result.Config? && table == map[] ==> result.config == basis)
      && (result.Config? && table != map[] ==> result.config == basis["tools" := Passes(2, basis["tools"], table)])
  {
    if basis == map[] {
      return Config(basis);
    }
    var replacements := starting;
    var commondefs := CommonDefsOf(basis);
    if !Falsy(commondefs) {
      if !commondefs.Obj? {
        return Malformed;
      }
      if key in commondefs.fields {
        var newReplacements := commondefs.fields[key];
        if !Updates(newReplacements) {
          return Malformed;
        }
        if newReplacements.Obj? {
          replacements := replacements + newReplacements.fields;
        }
      }
    }
    if replacements == map[] {
      return Config(basis);
    }
    if "tools" !in basis || !basis["tools"].List? {
      return Malformed;
    }
    var newReplacements := FilterOneDict(Obj(replacements), replacements);
    assert newReplacements == SelfSubstituted(replacements);
    var tools := FilterOneList(basis["tools"], newReplacements);
    SelfSubstitutedIsTwice(basis["tools"], replacements);
    return Config(basis["tools" := List(tools)]);
  }

  /* ---------- two passes ---------- */

  lemma TwoPasses(j: Json, r: Table)
    ensures Passes(2, j, r) == Sub(Sub(j, r), r)
  {
    assert Passes(1, Sub(j, r), r) == Passes(0, Sub(Sub(j, r), r), r);
  }

  // Substituting once with the self-substituted table is substituting twice with the original
  // one, on every value and every table, cyclic ones included.
  lemma {:induction false} SelfSubstitutedIsTwice(j: Json, r: Table)
    ensures Sub(j, SelfSubstituted(r)) == Sub(Sub(j, r), r) == Passes(2, j, r)
    decreases j
  {
    TwoPasses(j, r);
    match j
    case Str(s) =>
      if s in r {
        NullOnlyFromNull(r[s], r);
      }
    case List(items) =>
      forall i | 0 <= i < |items| ensures Sub(items[i], SelfSubstituted(r)) == Sub(Sub(items[i], r), r) {
        SelfSubstitutedIsTwice(items[i], r);
      }
    case Obj(fields) =>
      forall k | k in fields ensures Sub(fields[k], SelfSubstituted(r)) == Sub(Sub(fields[k], r), r) {
        SelfSubstitutedIsTwice(fields[k], r);
      }
    case _ =>
  }

  /* ---------- what becomes of one value ---------- */

  datatype Turn = Key(key: string) | Nth(index: nat)

  // What lies at the end of a way into a value.
  function Within(j: Json, way: seq<Turn>): Option<Json>
    decreases |way|
  {
    if way == [] then Some(j)
    else
      match way[0]
      case Key(k) => if j.Obj? && k in j.fields then Within(j.fields[k], way[1..]) else None
      case Nth(i) => if j.List? && i < |j.items| then Within(j.items[i], way[1..]) else None
  }

  lemma {:induction false} SubWithin(j: Json, way: seq<Turn>, r: Table)
    requires Within(j, way).Some?
    ensures Within(Sub(j, r), way) == Some(Sub(Within(j, way).value, r))
    decreases |way|
  {
    if way != [] {
      SubWithin(if way[0].Key? then j.fields[way[0].key] else j.items[way[0].index], way[1..], r);
    }
  }

  // Anywhere in the tools, a string that names an entry becomes that entry; an entry that is a
  // string is looked up once more; everything else that is no container stays.
  lemma FilteredAt(tools: Json, way: seq<Turn>, r: Table)
    requires Within(tools, way).Some?
    ensures var was, becomes := Within(tools, way).value, Within(Passes(2, tools, r), way);
      && (was.Str? && was.s in r && r[was.s].Str? ==>
            var t := r[was.s].s; becomes == Some(if t in r && r[t] != Null then r[t] else Str(t)))
      && (was.Str? && was.s in r && (r[was.s].Bool? || r[was.s].Num?) ==> becomes == Some(r[was.s]))
      && (was.Str? && was.s in r && (r[was.s].List? || r[was.s].Obj?) ==> becomes == Some(Sub(r[was.s], r)))
      && (was.Str? && (was.s !in r || r[was.s] == Null) ==> becomes == Some(was))
      && (was.Null? || was.Bool? || was.Num? ==> becomes == Some(was))
  {
    TwoPasses(tools, r);
    SubWithin(tools, way, r);
    SubWithin(Sub(tools, r), way, r);
  }

  /* ---------- when the passes are enough ---------- */

  // A cycle of m references from one string to the other.
  predicate Leads(m: nat, from: string, to: string, r: Table) {
    if m == 0 then from == to
    else Replaced(from, r) && r[from].Str? && Leads(m - 1, r[from].s, to, r)
  }

  // After n replacements every string that still names an entry is m references from itself;
  // with m = 1, references nest at most n deep and what is left is replaced by itself.
  ghost predicate Recurs(n: nat, m: nat, j: Json, r: Table)
    decreases n, j
  {
    match j
    case Str(s) => !Replaced(s, r) || (if n == 0 then Leads(m, s, s, r) else Recurs(n - 1, m, r[s], r))
    case List(items) => forall i :: 0 <= i < |items| ==> Recurs(n, m, items[i], r)
    case Obj(fields) => forall k :: k in fields ==> Recurs(n, m, fields[k], r)
    case _ => true
  }

  lemma {:induction false} PassesList(n: nat, items: seq<Json>, r: Table)
    ensures Passes(n, List(items), r) == List(seq(|items|, i requires 0 <= i < |items| => Passes(n, items[i], r)))
    decreases n
  {
    if n > 0 {
      var next := seq(|items|, i requires 0 <= i < |items| => Sub(items[i], r));
      PassesList(n - 1, next, r);
      assert Sub(List(items), r) == List(next);
    }
  }

  lemma {:induction false} PassesObj(n: nat, fields: map<string, Json>, r: Table)
    ensures Passes(n, Obj(fields), r) == Obj(map k | k in fields :: Passes(n, fields[k], r))
    decreases n
  {
    if n > 0 {
      var next := map k | k in fields :: Sub(fields[k], r);
      PassesObj(n - 1, next, r);
      assert Sub(Obj(fields), r) == Obj(next);
    }
  }

  lemma {:induction false} PassesLeaf(n: nat, j: Json, r: Table)
    requires !j.List? && !j.Obj? && (j.Str? ==> !Replaced(j.s, r))
    ensures Passes(n, j, r) == j
  {
    if n > 0 {
      PassesLeaf(n - 1, j, r);
    }
  }

  lemma {:induction false} OneMorePass(n: nat, j: Json, r: Table)
    ensures Passes(n + 1, j, r) == Sub(Passes(n, j, r), r)
  {
    if n > 0 {
      OneMorePass(n - 1, Sub(j, r), r);
    }
  }

  lemma {:induction false} MorePasses(n: nat, m: nat, j: Json, r: Table)
    ensures Passes(n + m, j, r) == Passes(m, Passes(n, j, r), r)
  {
    if n > 0 {
      MorePasses(n - 1, m, Sub(j, r), r);
    }
  }

  // m passes make one string of another exactly when they are m references apart.
  lemma {:induction false} LeadsExactly(m: nat, from: string, to: string, r: Table)
    requires Replaced(to, r)
    ensures Passes(m, Str(from), r) == Str(to) <==> Leads(m, from, to, r)
  {
    if m > 0 {
      if !Replaced(from, r) {
        PassesLeaf(m, Str(from), r);
      } else if r[from].Str? {
        LeadsExactly(m - 1, r[from].s, to, r);
      } else {
        NeverAString(m - 1, r[from], r);
      }
    }
  }

  lemma {:induction false} NeverAString(m: nat, j: Json, r: Table)
    requires !j.Str?
    ensures !Passes(m, j, r).Str?
  {
    if m > 0 {
      NeverAString(m - 1, Sub(j, r), r);
    }
  }

  // m more passes after n change nothing exactly when every string then left recurs after m.
  lemma {:induction false} RecursExactly(n: nat, m: nat, j: Json, r: Table)
    ensures Passes(n + m, j, r) == Passes(n, j, r) <==> Recurs(n, m, j, r)
    decreases n, j
  {
    match j
    case Str(s) =>
      if !Replaced(s, r) {
        PassesLeaf(n, j, r);
        PassesLeaf(n + m, j, r);
      } else if n == 0 {
        LeadsExactly(m, s, s, r);
      } else {
        RecursExactly(n - 1, m, r[s], r);
      }
    case List(items) =>
      forall i | 0 <= i < |items|
        ensures Passes(n + m, items[i], r) == Passes(n, items[i], r) <==> Recurs(n, m, items[i], r)
      {
        RecursExactly(n, m, items[i], r);
      }
      SameLists(n, m, items, r);
    case Obj(fields) =>
      forall k | k in fields
        ensures Passes(n + m, fields[k], r) == Passes(n, fields[k], r) <==> Recurs(n, m, fields[k], r)
      {
        RecursExactly(n, m, fields[k], r);
      }
      SameObjs(n, m, fields, r);
    case _ =>
      PassesLeaf(n, j, r);
      PassesLeaf(n + m, j, r);
  }

  lemma SameLists(n: nat, m: nat, items: seq<Json>, r: Table)
    ensures Passes(n + m, List(items), r) == Passes(n, List(items), r) <==>
      forall i :: 0 <= i < |items| ==> Passes(n + m, items[i], r) == Passes(n, items[i], r)
  {
    PassesList(n, items, r);
    PassesList(n + m, items, r);
    var a, b := Passes(n + m, List(items), r), Passes(n, List(items), r);
    if a == b {
      forall i | 0 <= i < |items| ensures Passes(n + m, items[i], r) == Passes(n, items[i], r) {
        assert a.items[i] == b.items[i];
      }
    }
  }

  lemma SameObjs(n: nat, m: nat, fields: map<string, Json>, r: Table)
    ensures Passes(n + m, Obj(fields), r) == Passes(n, Obj(fields), r) <==>
      forall k :: k in fields ==> Passes(n + m, fields[k], r) == Passes(n, fields[k], r)
  {
    PassesObj(n, fields, r);
    PassesObj(n + m, fields, r);
    var a, b := Passes(n + m, Obj(fields), r), Passes(n, Obj(fields), r);
    if a == b {
      forall k | k in fields ensures Passes(n + m, fields[k], r) == Passes(n, fields[k], r) {
        assert a.fields[k] == b.fields[k];
      }
    }
  }

  // n passes reach a fixed point exactly when references nest at most n deep.
  lemma FixedExactly(n: nat, j: Json, r: Table)
    ensures Passes(n + 1, j, r) == Passes(n, j, r) <==> Recurs(n, 1, j, r)
  {
    RecursExactly(n, 1, j, r);
  }

  // The filtered tools are left alone by another pass exactly when references nest at most two deep.
  lemma FilterIsFixedExactly(tools: Json, r: Table)
    ensures var filtered := Sub(tools, SelfSubstituted(r));
      Sub(filtered, r) == filtered <==> Recurs(2, 1, tools, r)
  {
    SelfSubstitutedIsTwice(tools, r);
    OneMorePass(2, tools, r);
    FixedExactly(2, tools, r);
  }

  // Filtering them again, which is two more passes, leaves them alone exactly when every string
  // that still names an entry is two references from itself: cycles of one or of two.
  lemma FilterTwiceExactly(tools: Json, r: Table)
    ensures var filtered := Sub(tools, SelfSubstituted(r));
      Sub(filtered, SelfSubstituted(r)) == filtered <==> Recurs(2, 2, tools, r)
  {
    var filtered := Sub(tools, SelfSubstituted(r));
    SelfSubstitutedIsTwice(tools, r);
    SelfSubstitutedIsTwice(filtered, r);
    MorePasses(2, 2, tools, r);
    RecursExactly(2, 2, tools, r);
  }

  /* ---------- what is preserved ---------- */

  // Outside replaced strings: the same keys, the same list lengths, the same leaves.
  ghost predicate SameOutside(j: Json, result: Json, r: Table)
    decreases j
  {
    match j
    case Str(s) => Replaced(s, r) || result == j
    case List(items) => result.List? && |result.items| == |items| &&
      forall i :: 0 <= i < |items| ==> SameOutside(items[i], result.items[i], r)
    case Obj(fields) => result.Obj? && result.fields.Keys == fields.Keys &&
      forall k :: k in fields ==> SameOutside(fields[k], result.fields[k], r)
    case _ => result == j
  }

  lemma {:induction false} FilterKeepsShape(j: Json, r: Table)
    ensures SameOutside(j, Sub(j, SelfSubstituted(r)), r)
    decreases j
  {
    match j
    case Str(s) =>
      if s in r {
        NullOnlyFromNull(r[s], r);
      }
    case List(items) =>
      forall i | 0 <= i < |items| ensures SameOutside(items[i], Sub(items[i], SelfSubstituted(r)), r) {
        FilterKeepsShape(items[i], r);
      }
    case Obj(fields) =>
      forall k | k in fields ensures SameOutside(fields[k], Sub(fields[k], SelfSubstituted(r)), r) {
        FilterKeepsShape(fields[k], r);
      }
    case _ =>
  }
}
