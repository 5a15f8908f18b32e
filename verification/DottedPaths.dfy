// Reading and writing a dictionary at a dotted path, and merging two dictionaries with the
// second winning: DictionaryExtractor.get, set_tool_value and DictionaryOverlay.overlay.
module DottedPaths {
  import opened Json

  type Fields = map<string, Json>

  // A dotted key, split at its dots.
  type Path = p: seq<string> | p != [] witness [""]

  function At(fields: Fields, key: string): Json {
    if key in fields then fields[key] else Null
  }

  // Null when any part is missing or is not a dictionary.
  function Get(fields: Fields, path: Path): Json
    decreases |path|
  {
    var v := At(fields, path[0]);
    if |path| == 1 then v
    else if v.Obj? then Get(v.fields, path[1..])
    else Null
  }

  // Missing dictionaries on the way are created; a value that is not a dictionary blocks the way.
  function Set(fields: Fields, path: Path, value: Json): Fields
    decreases |path|
  {
    if |path| == 1 then fields[path[0] := value]
    else
      var v := At(fields, path[0]);
      if v == Null then fields[path[0] := Obj(Set(map[], path[1..], value))]
      else if !v.Obj? then fields
      else fields[path[0] := Obj(Set(v.fields, path[1..], value))]
  }

  method SetToolValue(target: Fields, path: Path, value: Json) returns (result: Fields)
    ensures result == Set(target, path, value)
    decreases |path|
  {
    if |path| == 1 {
      return target[path[0] := value];
    }
    var part := At(target, path[0]);
    result := target;
    if part == Null {
      part := Obj(map[]);
      result := result[path[0] := part];
    } else if !part.Obj? {
      return;
    }
    var inner := SetToolValue(part.fields, path[1..], value);
    result := result[path[0] := Obj(inner)];
  }

  // Some proper prefix of the path holds a value that is not a dictionary.
  ghost predicate Blocked(fields: Fields, path: Path)
    decreases |path|
  {
    |path| > 1 &&
    var v := At(fields, path[0]);
    v != Null && (v.Obj? ==> Blocked(v.fields, path[1..]))
  }

  // Neither path is a prefix of the other.
  predicate Apart(p: Path, q: Path)
    decreases |p|
  {
    p[0] != q[0] || (|p| > 1 && |q| > 1 && Apart(p[1..], q[1..]))
  }

  // What was set is read back, unless the path was blocked, and then nothing was set.
  lemma {:induction false} GetAfterSet(fields: Fields, path: Path, value: Json)
    ensures Blocked(fields, path) ==> Set(fields, path, value) == fields && Get(fields, path) == Null
    ensures !Blocked(fields, path) ==> Get(Set(fields, path, value), path) == value
    decreases |path|
  {
    if |path| > 1 {
      var v := At(fields, path[0]);
      if v == Null {
        NotBlockedInEmpty(path[1..]);
        GetAfterSet(map[], path[1..], value);
      } else if v.Obj? {
        GetAfterSet(v.fields, path[1..], value);
        if Blocked(fields, path) {
          assert fields[path[0] := v] == fields;
        }
      }
    }
  }

  lemma NotBlockedInEmpty(path: Path)
    ensures !Blocked(map[], path)
  {
  }

  lemma {:induction false} GetInEmpty(path: Path)
    ensures Get(map[], path) == Null
  {
  }

  // Paths apart from the one set read as before.
  lemma {:induction false} GetApart(fields: Fields, path: Path, value: Json, other: Path)
    requires Apart(path, other)
    ensures Get(Set(fields, path, value), other) == Get(fields, other)
    decreases |path|
  {
    if |path| > 1 && path[0] == other[0] {
      var v := At(fields, path[0]);
      if v == Null {
        GetApart(map[], path[1..], value, other[1..]);
        GetInEmpty(other[1..]);
      } else if v.Obj? {
        GetApart(v.fields, path[1..], value, other[1..]);
      }
    }
  }

  // Setting what is already there changes nothing.
  lemma {:induction false} SetSame(fields: Fields, path: Path)
    requires Get(fields, path) != Null || Blocked(fields, path)
    ensures Set(fields, path, Get(fields, path)) == fields
    decreases |path|
  {
    GetAfterSet(fields, path, Get(fields, path));
    if |path| == 1 {
      assert fields[path[0] := fields[path[0]]] == fields;
    } else {
      var v := At(fields, path[0]);
      if v.Obj? {
        SetSame(v.fields, path[1..]);
        assert fields[path[0] := v] == fields;
      }
    }
  }

  // Reading below a path that was set is reading below the value.
  lemma {:induction false} GetBelow(fields: Fields, path: Path, rest: Path)
    ensures Get(fields, path + rest) ==
      if Get(fields, path).Obj? then Get(Get(fields, path).fields, rest) else Null
    decreases |path|
  {
    if |path| == 1 {
      assert (path + rest)[1..] == rest;
    } else {
      assert (path + rest)[1..] == path[1..] + rest;
      if At(fields, path[0]).Obj? {
        GetBelow(At(fields, path[0]).fields, path[1..], rest);
      }
    }
  }

  // Above a leaf that is read there is no other leaf: a path set where nothing was read cannot
  // touch it.
  lemma {:induction false} SetKeepsLeaves(fields: Fields, path: Path, value: Json, leaf: Path)
    requires Get(fields, path) == Null
    requires Get(fields, leaf) != Null && !Get(fields, leaf).Obj?
    ensures Get(Set(fields, path, value), leaf) == Get(fields, leaf)
    decreases |path|
  {
    if path[0] == leaf[0] && |path| > 1 {
      var v := At(fields, path[0]);
      if v.Obj? {
        SetKeepsLeaves(v.fields, path[1..], value, leaf[1..]);
      }
    }
  }

  /* ---------- merging ---------- */

  // Two dictionaries merge key by key; otherwise the second wins.
  function Overlay(basis: Json, over: Json): Json
    decreases basis
  {
    if basis.Obj? && over.Obj? then
      Obj(map k | k in basis.fields.Keys + over.fields.Keys ::
            if k !in over.fields then basis.fields[k]
            else if k !in basis.fields then over.fields[k]
            else Overlay(basis.fields[k], over.fields[k]))
    else over
  }

  // Everything the first value says is already in the second, or overruled by it.
  ghost predicate Absorbed(basis: Json, value: Json)
    decreases basis
  {
    basis.Obj? && value.Obj? ==>
      forall k :: k in basis.fields ==> k in value.fields && Absorbed(basis.fields[k], value.fields[k])
  }

  // Absorbed values are exactly those that another merge leaves alone.
  lemma {:induction false} AbsorbedIff(basis: Json, value: Json)
    ensures Absorbed(basis, value) <==> Overlay(basis, value) == value
    decreases basis
  {
    if basis.Obj? && value.Obj? {
      var merged := Overlay(basis, value).fields;
      forall k | k in basis.fields && k in value.fields
        ensures Absorbed(basis.fields[k], value.fields[k]) <==> merged[k] == value.fields[k]
      {
        AbsorbedIff(basis.fields[k], value.fields[k]);
      }
      if Absorbed(basis, value) {
        assert merged.Keys == value.fields.Keys;
        assert merged == value.fields;
      }
      if merged == value.fields {
        assert forall k :: k in basis.fields ==> k in merged;
      }
    }
  }

  lemma {:induction false} AbsorbedBySelf(v: Json)
    ensures Absorbed(v, v)
    decreases v
  {
    if v.Obj? {
      forall k | k in v.fields ensures Absorbed(v.fields[k], v.fields[k]) {
        AbsorbedBySelf(v.fields[k]);
      }
    }
  }

  lemma {:induction false} AbsorbedByOverlay(basis: Json, over: Json)
    ensures Absorbed(basis, Overlay(basis, over))
    decreases basis
  {
    if basis.Obj? && over.Obj? {
      var merged := Overlay(basis, over).fields;
      forall k | k in basis.fields ensures k in merged && Absorbed(basis.fields[k], merged[k]) {
        if k in over.fields {
          AbsorbedByOverlay(basis.fields[k], over.fields[k]);
        } else {
          AbsorbedBySelf(basis.fields[k]);
        }
      }
    }
  }

  // A later merge of something else underneath does not undo it.
  lemma {:induction false} AbsorbedStays(basis: Json, other: Json, value: Json)
    requires Absorbed(basis, value)
    ensures Absorbed(basis, Overlay(other, value))
    decreases basis
  {
    if basis.Obj? && other.Obj? && value.Obj? {
      var merged := Overlay(other, value).fields;
      forall k | k in basis.fields ensures k in merged && Absorbed(basis.fields[k], merged[k]) {
        if k in other.fields {
          AbsorbedStays(basis.fields[k], other.fields[k], value.fields[k]);
        }
      }
    }
  }

  // A leaf of the second value is read through the merge.
  lemma {:induction false} OverlayKeepsLeaves(basis: Json, over: Json, leaf: Path)
    requires basis.Obj? && over.Obj?
    requires Get(over.fields, leaf) != Null && !Get(over.fields, leaf).Obj?
    ensures Get(Overlay(basis, over).fields, leaf) == Get(over.fields, leaf)
    decreases |leaf|
  {
    var k := leaf[0];
    if k in basis.fields && basis.fields[k].Obj? && over.fields[k].Obj? {
      OverlayKeepsLeaves(basis.fields[k], over.fields[k], leaf[1..]);
    }
  }

  // Where the second value has nothing on the way, the first is read through the merge.
  lemma {:induction false} OverlayFillsGaps(basis: Json, over: Json, path: Path)
    requires basis.Obj? && over.Obj?
    requires Untouched(over.fields, path)
    ensures Get(Overlay(basis, over).fields, path) == Get(basis.fields, path)
    decreases |path|
  {
    var k := path[0];
    if |path| > 1 && k in over.fields && k in basis.fields && basis.fields[k].Obj? {
      OverlayFillsGaps(basis.fields[k], over.fields[k], path[1..]);
    } else if |path| > 1 && k in over.fields {
      UntouchedIsNull(over.fields[k].fields, path[1..]);
    }
  }

  // Dictionaries all along, until the key that is missing.
  ghost predicate Untouched(fields: Fields, path: Path)
    decreases |path|
  {
    path[0] !in fields || (|path| > 1 && fields[path[0]].Obj? && Untouched(fields[path[0]].fields, path[1..]))
  }

  lemma {:induction false} UntouchedIsNull(fields: Fields, path: Path)
    requires Untouched(fields, path)
    ensures Get(fields, path) == Null
    decreases |path|
  {
    if path[0] in fields {
      UntouchedIsNull(fields[path[0]].fields, path[1..]);
    }
  }
}
