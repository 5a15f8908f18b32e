// The chat-history normaliser: brace escaping, redaction of the first system message and
// curtailment of the history (chat_history_message_processor.py).
module ChatHistory {
  /* ---------- escaping ---------- */

  // text.replace(cc, c): pairs from the left, without overlap.
  function Collapse(c: char, s: string): string {
    if s == [] then []
    else if |s| >= 2 && s[0] == c && s[1] == c then [c] + Collapse(c, s[2..])
    else [s[0]] + Collapse(c, s[1..])
  }

  // text.replace(c, cc)
  function Double(c: char, s: string): string {
    if s == [] then [] else (if s[0] == c then [c, c] else [s[0]]) + Double(c, s[1..])
  }

  function Unescape(s: string): string {
    Collapse('}', Collapse('{', s))
  }

  function DoubleBoth(s: string): string {
    Double('}', Double('{', s))
  }

  // Pre-escaped braces become single ones, then every brace is doubled.
  function Escape(s: string): string {
    DoubleBoth(Unescape(s))
  }

  lemma {:induction false} CollapseDouble(c: char, s: string)
    ensures Collapse(c, Double(c, s)) == s
  {
    if s != [] {
      CollapseDouble(c, s[1..]);
      var d := Double(c, s);
      if s[0] == c {
        assert d[2..] == Double(c, s[1..]);
      } else {
        assert d[1..] == Double(c, s[1..]);
      }
    }
  }

  lemma FirstKept(c: char, s: string)
    requires s != []
    ensures Collapse(c, s) != [] && Collapse(c, s)[0] == s[0]
    ensures Double(c, s) != [] && Double(c, s)[0] == s[0]
  {
  }

  lemma CollapsePair(c: char, t: string)
    ensures Collapse(c, [c] + ([c] + t)) == [c] + Collapse(c, t)
  {
    assert ([c] + ([c] + t))[2..] == t;
  }

  lemma CollapseCons(c: char, x: char, t: string)
    requires x != c || StartsOther(c, t)
    ensures Collapse(c, [x] + t) == [x] + Collapse(c, t)
  {
    assert ([x] + t)[1..] == t;
  }

  lemma DoubleCons(c: char, x: char, t: string)
    ensures Double(c, [x] + t) == if x == c then [c] + ([c] + Double(c, t)) else [x] + Double(c, t)
  {
    assert ([x] + t)[1..] == t;
  }

  lemma {:induction false} CollapseOtherDouble(a: char, b: char, s: string)
    requires a != b
    ensures Collapse(a, Double(b, s)) == Double(b, Collapse(a, s))
    decreases |s|
  {
    if s == [] {
    } else if |s| >= 2 && s[0] == a && s[1] == a {
      var t := s[2..];
      CollapseOtherDouble(a, b, t);
      assert s == [a] + ([a] + t);
      DoubleCons(b, a, [a] + t);
      DoubleCons(b, a, t);
      CollapsePair(a, Double(b, t));
      DoubleCons(b, a, Collapse(a, t));
    } else {
      var x, t := s[0], s[1..];
      CollapseOtherDouble(a, b, t);
      assert s == [x] + t;
      CollapseCons(a, x, t);
      DoubleCons(b, x, t);
      DoubleCons(b, x, Collapse(a, t));
      if x == b {
        CollapseCons(a, b, [b] + Double(b, t));
        CollapseCons(a, b, Double(b, t));
      } else {
        if x == a {
          OtherStarts(a, b, t);
        }
        CollapseCons(a, x, Double(b, t));
      }
    }
  }

  // Escaping twice is escaping once.
  lemma EscapeIdempotent(s: string)
    ensures Escape(Escape(s)) == Escape(s)
  {
    UnescapeEscaped(Unescape(s));
  }

  lemma UnescapeEscaped(s: string)
    ensures Unescape(DoubleBoth(s)) == s
  {
    CollapseOtherDouble('{', '}', Double('{', s));
    CollapseDouble('{', s);
    CollapseDouble('}', s);
  }

  /* ---------- escaping by runs ---------- */

  function Repeat(c: char, n: nat): string {
    if n == 0 then [] else [c] + Repeat(c, n - 1)
  }

  // The length of the run of c at the front.
  function RunLength(c: char, s: string): (n: nat)
    ensures n <= |s|
  {
    if s == [] || s[0] != c then 0 else 1 + RunLength(c, s[1..])
  }

  // Each maximal run of n equal braces becomes the next even number of them.
  function EscapeRuns(s: string): string
    decreases |s|
  {
    if s == [] then []
    else if s[0] == '{' || s[0] == '}' then
      var n := RunLength(s[0], s);
      Repeat(s[0], (n + 1) / 2 * 2) + EscapeRuns(s[n..])
    else [s[0]] + EscapeRuns(s[1..])
  }

  ghost predicate StartsOther(c: char, s: string) {
    s == [] || s[0] != c
  }

  lemma RepeatFront(c: char, n: nat, t: string)
    requires n > 0
    ensures Repeat(c, n) + t == [c] + (Repeat(c, n - 1) + t)
    ensures (Repeat(c, n) + t)[1..] == Repeat(c, n - 1) + t
  {
  }

  lemma {:induction false} RunIs(c: char, s: string)
    ensures s == Repeat(c, RunLength(c, s)) + s[RunLength(c, s)..]
    ensures StartsOther(c, s[RunLength(c, s)..])
  {
    if s != [] && s[0] == c {
      var n := RunLength(c, s);
      RunIs(c, s[1..]);
      assert s[1..][n - 1..] == s[n..];
      RepeatFront(c, n, s[n..]);
      assert s == [c] + s[1..];
    }
  }

  lemma {:induction false} CollapseRun(c: char, n: nat, t: string)
    requires StartsOther(c, t)
    ensures Collapse(c, Repeat(c, n) + t) == Repeat(c, (n + 1) / 2) + Collapse(c, t)
  {
    var s := Repeat(c, n) + t;
    if n == 0 {
      assert s == t;
    } else if n == 1 {
      RepeatFront(c, 1, t);
      assert Repeat(c, 0) + t == t;
      assert Repeat(c, 1) == [c];
    } else {
      RepeatFront(c, n, t);
      RepeatFront(c, n - 1, t);
      assert s[2..] == s[1..][1..] == Repeat(c, n - 2) + t;
      CollapseRun(c, n - 2, t);
      RepeatFront(c, (n + 1) / 2, Collapse(c, t));
    }
  }

  lemma {:induction false} DoubleRun(c: char, n: nat, t: string)
    ensures Double(c, Repeat(c, n) + t) == Repeat(c, 2 * n) + Double(c, t)
  {
    if n == 0 {
      assert Repeat(c, 0) + t == t;
    } else {
      RepeatFront(c, n, t);
      DoubleRun(c, n - 1, t);
      RepeatFront(c, 2 * n, Double(c, t));
      RepeatFront(c, 2 * n - 1, Double(c, t));
    }
  }

  lemma {:induction false} OtherRun(c: char, d: char, n: nat, t: string)
    requires c != d
    ensures Collapse(d, Repeat(c, n) + t) == Repeat(c, n) + Collapse(d, t)
    ensures Double(d, Repeat(c, n) + t) == Repeat(c, n) + Double(d, t)
  {
    if n == 0 {
      assert Repeat(c, 0) + t == t;
    } else {
      RepeatFront(c, n, t);
      OtherRun(c, d, n - 1, t);
      RepeatFront(c, n, Collapse(d, t));
      RepeatFront(c, n, Double(d, t));
    }
  }

  lemma OtherStarts(c: char, d: char, t: string)
    requires StartsOther(c, t)
    ensures StartsOther(c, Collapse(d, t)) && StartsOther(c, Double(d, t))
  {
    if t != [] {
      FirstKept(d, t);
    }
  }

  lemma UnescapeRun(c: char, n: nat, t: string)
    requires (c == '{' || c == '}') && StartsOther(c, t)
    ensures Unescape(Repeat(c, n) + t) == Repeat(c, (n + 1) / 2) + Unescape(t)
  {
    if c == '{' {
      CollapseRun('{', n, t);
      OtherRun('{', '}', (n + 1) / 2, Collapse('{', t));
    } else {
      OtherRun('}', '{', n, t);
      OtherStarts('}', '{', t);
      CollapseRun('}', n, Collapse('{', t));
    }
  }

  lemma DoubleBothRun(c: char, n: nat, t: string)
    requires c == '{' || c == '}'
    ensures DoubleBoth(Repeat(c, n) + t) == Repeat(c, 2 * n) + DoubleBoth(t)
  {
    if c == '{' {
      DoubleRun('{', n, t);
      OtherRun('{', '}', 2 * n, Double('{', t));
    } else {
      OtherRun('}', '{', n, t);
      DoubleRun('}', n, Double('{', t));
    }
  }

  lemma EscapeRun(c: char, n: nat, t: string)
    requires (c == '{' || c == '}') && StartsOther(c, t)
    ensures Escape(Repeat(c, n) + t) == Repeat(c, (n + 1) / 2 * 2) + Escape(t)
  {
    UnescapeRun(c, n, t);
    DoubleBothRun(c, (n + 1) / 2, Unescape(t));
  }

  lemma EscapeOther(c: char, t: string)
    requires c != '{' && c != '}'
    ensures Escape([c] + t) == [c] + Escape(t)
  {
    assert Repeat(c, 1) == [c];
    assert Unescape([c] + t) == [c] + Unescape(t) by {
      OtherRun(c, '{', 1, t);
      OtherRun(c, '}', 1, Collapse('{', t));
    }
    assert DoubleBoth([c] + Unescape(t)) == [c] + DoubleBoth(Unescape(t)) by {
      OtherRun(c, '{', 1, Unescape(t));
      OtherRun(c, '}', 1, Double('{', Unescape(t)));
    }
  }

  lemma {:induction false} EscapeIsByRuns(s: string)
    ensures Escape(s) == EscapeRuns(s)
    decreases |s|
  {
    if s == [] {
    } else if s[0] == '{' || s[0] == '}' {
      var n := RunLength(s[0], s);
      RunIs(s[0], s);
      EscapeRun(s[0], n, s[n..]);
      EscapeIsByRuns(s[n..]);
    } else {
      assert s == [s[0]] + s[1..];
      EscapeOther(s[0], s[1..]);
      EscapeIsByRuns(s[1..]);
    }
  }
}
