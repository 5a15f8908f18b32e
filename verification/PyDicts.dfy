// Python's dict with string keys: a finite map that also remembers the order in which
// its keys were first inserted.  Overwriting a key keeps its place; popping a key and
// inserting it again moves it to the end.
module PyDicts {

  datatype Option<+T> = None | Some(value: T)

  datatype Dict<V> = Dict(order: seq<string>, at: map<string, V>)
  {
    ghost predicate Valid() {
      Distinct(order) && Elements(order) == at.Keys
    }

    function Put(k: string, v: V): Dict<V> {
      Dict(if k in at then order else order + [k], at[k := v])
    }

    function Pop(k: string): Dict<V> {
      Dict(Without(order, k), at - {k})
    }
  }

  function Elements<T(==)>(s: seq<T>): set<T> {
    set x | x in s
  }

  ghost predicate Distinct<T>(s: seq<T>) {
    s == [] || (s[|s| - 1] !in s[..|s| - 1] && Distinct(s[..|s| - 1]))
  }

  function Without(s: seq<string>, k: string): seq<string> {
    if s == [] then []
    else Without(s[..|s| - 1], k) + if s[|s| - 1] == k then [] else [s[|s| - 1]]
  }

  lemma Regroup<T>(a: seq<T>, b: seq<T>, c: seq<T>)
    ensures a + b + c == a + (b + c)
  {
  }

  lemma ElementsAppend<T>(s: seq<T>, x: T)
    ensures Elements(s + [x]) == Elements(s) + {x}
  {
  }

  lemma DistinctAppend<T>(s: seq<T>, x: T)
    requires Distinct(s) && x !in s
    ensures Distinct(s + [x])
  {
    assert (s + [x])[..|s|] == s;
  }

  lemma {:induction false} DistinctMeans<T>(s: seq<T>)
    ensures Distinct(s) <==> forall i, j :: 0 <= i < j < |s| ==> s[i] != s[j]
  {
    if s != [] {
      DistinctMeans(s[..|s| - 1]);
    }
  }

  lemma {:induction false} WithoutElements(s: seq<string>, k: string)
    ensures forall x :: x in Without(s, k) <==> x in s && x != k
  {
    if s != [] {
      WithoutElements(s[..|s| - 1], k);
      assert s == s[..|s| - 1] + [s[|s| - 1]];
    }
  }

  lemma {:induction false} WithoutDistinct(s: seq<string>, k: string)
    requires Distinct(s)
    ensures Distinct(Without(s, k))
  {
    if s != [] {
      var front, last := s[..|s| - 1], s[|s| - 1];
      WithoutDistinct(front, k);
      if last == k {
        assert Without(s, k) == Without(front, k);
      } else {
        WithoutElements(front, k);
        DistinctAppend(Without(front, k), last);
      }
    }
  }

  lemma PutValid<V>(d: Dict<V>, k: string, v: V)
    requires d.Valid()
    ensures d.Put(k, v).Valid()
  {
    if k !in d.at {
      assert k !in Elements(d.order);
      DistinctAppend(d.order, k);
      ElementsAppend(d.order, k);
    }
  }

  lemma PopValid<V>(d: Dict<V>, k: string)
    requires d.Valid()
    ensures d.Pop(k).Valid()
  {
    WithoutElements(d.order, k);
    WithoutDistinct(d.order, k);
  }

  // A sequence without repetition has as many elements as positions.
  lemma {:induction false} DistinctSize<T>(s: seq<T>)
    requires Distinct(s)
    ensures |Elements(s)| == |s|
  {
    if s == [] {
      assert Elements(s) == {};
    } else {
      var front, last := s[..|s| - 1], s[|s| - 1];
      DistinctSize(front);
      assert s == front + [last];
      ElementsAppend(front, last);
      assert last !in Elements(front);
    }
  }

  /* ---------- first occurrences ---------- */

  // list(dict.fromkeys(s)): the first occurrence of each element, in order.
  function Deduped<T(==)>(s: seq<T>): seq<T> {
    if s == [] then []
    else
      var front, last := Deduped(s[..|s| - 1]), s[|s| - 1];
      if last in front then front else front + [last]
  }

  lemma DedupedSnoc<T>(s: seq<T>, x: T)
    ensures Deduped(s + [x]) == if x in Deduped(s) then Deduped(s) else Deduped(s) + [x]
  {
    assert (s + [x])[..|s|] == s;
  }

  lemma {:induction false} DedupedIs<T>(s: seq<T>)
    ensures Distinct(Deduped(s))
    ensures forall x :: x in Deduped(s) <==> x in s
    ensures Deduped(s) == s <==> Distinct(s)
  {
    if s != [] {
      var front, last := s[..|s| - 1], s[|s| - 1];
      assert s == front + [last];
      DedupedIs(front);
      if last !in Deduped(front) {
        DistinctAppend(Deduped(front), last);
      }
      DedupedLength(front);
    }
  }

  lemma {:induction false} DedupedLength<T>(s: seq<T>)
    ensures |Deduped(s)| <= |s|
  {
    if s != [] {
      DedupedLength(s[..|s| - 1]);
    }
  }

  // What comes first stays first, and elements already seen add nothing.
  lemma {:induction false} DedupedPrefix<T>(a: seq<T>, b: seq<T>)
    ensures Deduped(a) <= Deduped(a + b)
  {
    if b == [] {
      assert a + b == a;
    } else {
      DedupedPrefix(a, b[..|b| - 1]);
      assert a + b == a + b[..|b| - 1] + [b[|b| - 1]];
      DedupedSnoc(a + b[..|b| - 1], b[|b| - 1]);
    }
  }

  lemma {:induction false} DistinctAt<T>(s: seq<T>, i: nat)
    requires Distinct(s) && i < |s|
    ensures s[i] !in s[..i]
  {
    if i < |s| - 1 {
      DistinctAt(s[..|s| - 1], i);
      assert s[..|s| - 1][..i] == s[..i];
    }
  }

  lemma AllBefore<T>(front: seq<T>, d: seq<T>, n: nat)
    requires |front| < n <= |d| && front <= d
    ensures d[..n] == d[..n - 1] + [d[n - 1]]
    ensures n - 1 == |front| ==> front == d[..n - 1]
  {
  }

  lemma {:induction false} DedupedOfPrefixes<T>(a: seq<T>, d: seq<T>, n: nat)
    requires n <= |d| && Distinct(d) && Deduped(a) <= d
    ensures Deduped(a + d[..n]) == if n <= |Deduped(a)| then Deduped(a) else d[..n]
  {
    if n == 0 {
      assert a + d[..0] == a;
    } else {
      DedupedOfPrefixes(a, d, n - 1);
      assert a + d[..n] == a + d[..n - 1] + [d[n - 1]];
      DedupedSnoc(a + d[..n - 1], d[n - 1]);
      DistinctAt(d, n - 1);
      if n <= |Deduped(a)| {
        assert Deduped(a)[n - 1] == d[n - 1];
      } else {
        AllBefore(Deduped(a), d, n);
      }
    }
  }

  // The union of a with a union that a started is that union.
  lemma UnionAgain<T>(a: seq<T>, b: seq<T>)
    ensures Deduped(a + Deduped(a + b)) == Deduped(a + b)
  {
    var d := Deduped(a + b);
    DedupedIs(a + b);
    DedupedPrefix(a, b);
    DedupedOfPrefixes(a, d, |d|);
    assert d[..|d|] == d;
    if |d| <= |Deduped(a)| {
      assert d == Deduped(a);
    }
  }
}
