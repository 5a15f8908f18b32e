// Where a message comes from (origination.py): numbering the incarnations of a tool, and
// rendering the path to one of them as a single dotted name.
module Origination {
  import opened PyDicts

  // The instantiation index of an origin dictionary: without a key, None under it, or a number.
  datatype Index = NoKey | NoneValue | Is(n: int)

  datatype Component = Component(tool: Option<string>, index: Index)

  datatype Rendered = NoOrigin | FullName(name: string) | ValueError | TypeError

  // How a tool name is read as the URL of an external agent: the agent's name there, if it is one.
  type Urls = string -> Option<string>

  /* ---------- numbering ---------- */

  // How often a tool was numbered.
  function Count(issued: seq<(string, nat)>, tool: string): nat {
    if issued == [] then 0
    else Count(issued[..|issued| - 1], tool) + if issued[|issued| - 1].0 == tool then 1 else 0
  }

  class Origination {
    var toolToIndexMap: map<string, nat>
    ghost var issued: seq<(string, nat)>  // every (tool, index) handed out since the last reset

    ghost predicate Valid()
      reads this
    {
      && (forall tool :: tool in toolToIndexMap ==> toolToIndexMap[tool] == Count(issued, tool) + 1)
      && (forall tool :: tool !in toolToIndexMap ==> Count(issued, tool) == 0)
      && Numbered(issued)
    }

    constructor ()
      ensures Valid() && issued == []
    {
      toolToIndexMap, issued := map[], [];
    }

    method AddSpecNameToOrigin(origin: Option<seq<Component>>, agentName: Option<string>)
      returns (newOrigin: seq<Component>)
      requires Valid()
      modifies this
      ensures Valid()
      ensures origin.None? || agentName.None? ==> newOrigin == [] && issued == old(issued)
      ensures origin.Some? && agentName.Some? ==>
        var index := Count(old(issued), agentName.value) + 1;
        && newOrigin == origin.value + [Component(agentName, Is(index))]
        && issued == old(issued) + [(agentName.value, index)]
    {
      if origin.None? || agentName.None? {
        return [];
      }
      var tool := agentName.value;
      var index := if tool in toolToIndexMap then toolToIndexMap[tool] else 1;
      toolToIndexMap := toolToIndexMap[tool := index + 1];
      newOrigin := origin.value + [Component(agentName, Is(index))];
      issued := issued + [(tool, index)];
      assert issued[..|issued| - 1] == old(issued);
    }

    method Reset()
      modifies this
      ensures Valid() && issued == []
    {
      toolToIndexMap, issued := map[], [];
    }
  }

  // Each tool gets 1, 2, 3, ... in the order asked.
  ghost predicate Numbered(issued: seq<(string, nat)>) {
    issued == [] ||
    (var front, last := issued[..|issued| - 1], issued[|issued| - 1];
     Numbered(front) && last.1 == Count(front, last.0) + 1)
  }

  lemma {:induction false} NoGapNoRepeat(issued: seq<(string, nat)>, tool: string, index: nat)
    requires Numbered(issued)
    ensures (tool, index) in issued <==> 1 <= index <= Count(issued, tool)
    ensures Occurrences(issued, (tool, index)) == if 1 <= index <= Count(issued, tool) then 1 else 0
  {
    if issued != [] {
      var front, last := issued[..|issued| - 1], issued[|issued| - 1];
      NoGapNoRepeat(front, tool, index);
      assert issued == front + [last];
    }
  }

  function Occurrences(issued: seq<(string, nat)>, pair: (string, nat)): nat {
    if issued == [] then 0
    else Occurrences(issued[..|issued| - 1], pair) + if issued[|issued| - 1] == pair then 1 else 0
  }

  lemma {:induction false} NeverTwice(issued: seq<(string, nat)>, i: nat, j: nat)
    requires Numbered(issued) && i < j < |issued|
    ensures issued[i] != issued[j]
  {
    var front, last := issued[..|issued| - 1], issued[|issued| - 1];
    if j < |issued| - 1 {
      NeverTwice(front, i, j);
    } else {
      NoGapNoRepeat(front, last.0, last.1);
      assert front[i] in front;
    }
  }

  /* ---------- rendering ---------- */

  function Digit(n: nat): char
    requires n < 10
  {
    "0123456789"[n]
  }

  function Decimal(n: nat): (s: string)
    ensures s != []
  {
    if n < 10 then [Digit(n)] else Decimal(n / 10) + [Digit(n % 10)]
  }

  // str.zfill(2)
  function ZFill2(s: string): string {
    if |s| == 0 then "00" else if |s| == 1 then "0" + s else s
  }

  function ReplaceAll(s: string, from: char, to: string): string {
    if s == "" then "" else ReplaceAll(s[..|s| - 1], from, to) + if s[|s| - 1] == from then to else [s[|s| - 1]]
  }

  function SafeName(urls: Urls, tool: string): string {
    if urls(tool).Some? then "__" + ReplaceAll(urls(tool).value, '/', "__") else tool
  }

  function IndexSuffix(index: int): string {
    if index > 1 then "-" + ZFill2(Decimal(index)) else ""
  }

  function EffectiveIndex(c: Component): int {
    if c.index.Is? then c.index.n else 1
  }

  function RenderOne(urls: Urls, c: Component): string
    requires c.tool.Some?
  {
    SafeName(urls, c.tool.value) + IndexSuffix(EffectiveIndex(c))
  }

  function Join(parts: seq<string>): string {
    if parts == [] then "" else if |parts| == 1 then parts[0] else parts[0] + "." + Join(parts[1..])
  }

  // str.replace("./", "/")
  function DropDots(s: string): string {
    if |s| < 2 then s
    else if s[0] == '.' && s[1] == '/' then "/" + DropDots(s[2..])
    else [s[0]] + DropDots(s[1..])
  }

  // A component without a tool, or with an index that cannot be compared, raises.
  function Fault(c: Component): Option<Rendered> {
    if c.tool.None? then Some(ValueError) else if c.index.NoneValue? then Some(TypeError) else None
  }

  function FirstFault(origin: seq<Component>): Option<Rendered> {
    if origin == [] then None
    else if Fault(origin[0]).Some? then Fault(origin[0])
    else FirstFault(origin[1..])
  }

  ghost predicate AllNamed(origin: seq<Component>) {
    forall i :: 0 <= i < |origin| ==> Fault(origin[i]).None?
  }

  lemma {:induction false} FaultAt(origin: seq<Component>, i: nat)
    requires i < |origin| && AllNamed(origin[..i]) && Fault(origin[i]).Some?
    ensures FirstFault(origin) == Fault(origin[i])
  {
    if i > 0 {
      assert origin[..i][0] == origin[0];
      assert origin[1..][..i - 1] == origin[..i][1..];
      FaultAt(origin[1..], i - 1);
    }
  }

  lemma {:induction false} NoFault(origin: seq<Component>)
    requires AllNamed(origin)
    ensures FirstFault(origin) == None
  {
    if origin != [] {
      NoFault(origin[1..]);
    }
  }

  // The first component without a tool, or with None for an index.
  ghost predicate FirstFaulty(origin: seq<Component>, i: nat)
    requires i < |origin|
  {
    && (origin[i].tool.None? || origin[i].index == NoneValue)
    && forall k :: 0 <= k < i ==> origin[k].tool.Some? && origin[k].index != NoneValue
  }

  // The first such component decides the error: ValueError without a tool, TypeError otherwise.
  lemma FirstFaultRaises(origin: seq<Component>, i: nat)
    requires i < |origin| && FirstFaulty(origin, i)
    ensures FirstFault(origin) == Some(if origin[i].tool.None? then ValueError else TypeError)
    ensures !AllNamed(origin)
  {
    assert AllNamed(origin[..i]);
    FaultAt(origin, i);
  }

  function Parts(urls: Urls, origin: seq<Component>): (parts: seq<string>)
    requires AllNamed(origin)
    ensures |parts| == |origin|
    ensures forall i :: 0 <= i < |parts| ==> parts[i] == RenderOne(urls, origin[i])
  {
    seq(|origin|, i requires 0 <= i < |origin| => RenderOne(urls, origin[i]))
  }

  ghost function FullNameOf(urls: Urls, origin: seq<Component>): string
    requires AllNamed(origin)
  {
    DropDots(Join(Parts(urls, origin)))
  }

  method GetFullNameFromOrigin(urls: Urls, origin: Option<seq<Component>>) returns (r: Rendered)
    ensures origin.None? ==> r == NoOrigin
    ensures origin.Some? && AllNamed(origin.value) ==> r == FullName(FullNameOf(urls, origin.value))
    ensures origin.Some? && !AllNamed(origin.value) ==> Some(r) == FirstFault(origin.value)
  {
    if origin.None? {
      return NoOrigin;
    }
    var components := origin.value;
    var originList: seq<string> := [];
    for i := 0 to |components|
      invariant AllNamed(components[..i])
      invariant originList == Parts(urls, components[..i])
    {
      var tool := components[i].tool;
      if tool.None? {
        FaultAt(components, i);
        return ValueError;
      }
      if components[i].index.NoneValue? {
        FaultAt(components, i);
        return TypeError;
      }
      var indexStr := "";
      if EffectiveIndex(components[i]) > 1 {
        indexStr := "-" + ZFill2(Decimal(EffectiveIndex(components[i])));
      }
      originList := originList + [SafeName(urls, tool.value) + indexStr];
    }
    assert components[..|components|] == components;
    r := FullName(DropDots(Join(originList)));
  }

  /* ---------- the name tells the origin ---------- */

  // A tool name that the dots and slashes of a rendered path cannot confuse.
  predicate Undotted(name: string) {
    name != "" && '.' !in name && '/' !in name
  }

  // Nor its dashes.
  predicate Plain(name: string) {
    Undotted(name) && '-' !in name
  }

  // An origin whose tools are all among these.
  ghost predicate Over(origin: seq<Component>, tools: set<string>) {
    forall i :: 0 <= i < |origin| ==> IsOver(origin[i], tools)
  }

  predicate IsOver(c: Component, tools: set<string>) {
    Fault(c).None? && c.tool.value in tools
  }

  ghost predicate AllUndotted(tools: set<string>) {
    forall t :: t in tools ==> Undotted(t)
  }

  // One tool is named like a later incarnation of the other.
  predicate Clash(tool: string, other: string, index: int) {
    index > 1 && other == tool + IndexSuffix(index)
  }

  ghost predicate NoClash(tools: set<string>) {
    forall t, t', k :: t in tools && t' in tools ==> !Clash(t, t', k)
  }

  // A URL that names an agent has a "/" before the agent's name.
  ghost predicate SlashedOnly(urls: Urls) {
    forall name :: '/' !in name ==> urls(name).None?
  }

  // Indices up to the first are not shown.
  function Shown(c: Component): (Option<string>, int) {
    (c.tool, if EffectiveIndex(c) > 1 then EffectiveIndex(c) else 1)
  }

  ghost predicate SamePlace(a: seq<Component>, b: seq<Component>) {
    |a| == |b| && forall i :: 0 <= i < |a| ==> Shown(a[i]) == Shown(b[i])
  }

  function DigitValue(c: char): nat {
    if '0' <= c <= '9' then (c - '0') as nat else 0
  }

  function Value(s: string): nat {
    if s == "" then 0 else 10 * Value(s[..|s| - 1]) + DigitValue(s[|s| - 1])
  }

  predicate AllDigits(s: string) {
    forall i :: 0 <= i < |s| ==> '0' <= s[i] <= '9'
  }

  lemma {:induction false} DecimalRead(n: nat)
    ensures Value(Decimal(n)) == n && AllDigits(Decimal(n))
  {
    if n < 10 {
      ValueSnoc("", n);
      assert "" + [Digit(n)] == [Digit(n)];
    } else {
      DecimalRead(n / 10);
      ValueSnoc(Decimal(n / 10), n % 10);
    }
  }

  lemma ValueSnoc(s: string, n: nat)
    requires n < 10
    ensures Value(s + [Digit(n)]) == 10 * Value(s) + n
    ensures AllDigits(s) ==> AllDigits(s + [Digit(n)])
  {
    assert (s + [Digit(n)])[..|s|] == s;
    assert '0' <= Digit(n) <= '9' && DigitValue(Digit(n)) == n;
  }

  lemma ZFillRead(s: string)
    requires AllDigits(s)
    ensures Value(ZFill2(s)) == Value(s) && AllDigits(ZFill2(s))
  {
    if |s| == 0 {
      assert "00"[..1] == "0" && "0"[..0] == "";
    } else if |s| == 1 {
      assert ("0" + s)[..1] == "0" && "0"[..0] == "" && s[..0] == "";
    }
  }

  // Two texts cut at the first occurrence of a character neither head contains.
  lemma {:induction false} CutOnce(c: char, a: string, x: string, b: string, y: string)
    requires c !in a && c !in b
    requires (x == "" || x[0] == c) && (y == "" || y[0] == c)
    requires a + x == b + y
    ensures a == b && x == y
  {
    assert a != "" ==> (a + x)[0] in a;
    assert b != "" ==> (b + y)[0] in b;
    assert a == "" ==> a + x == x;
    assert b == "" ==> b + y == y;
    if a != "" {
      assert (a + x)[0] == a[0] && (b + y)[0] == b[0];
      assert (a + x)[1..] == a[1..] + x && (b + y)[1..] == b[1..] + y;
      CutOnce(c, a[1..], x, b[1..], y);
      assert a == [a[0]] + a[1..] && b == [b[0]] + b[1..];
    }
  }

  lemma SuffixRead(index: int)
    ensures var s := IndexSuffix(index);
      && (s == "" <==> index <= 1)
      && '.' !in s && '/' !in s
      && (s != "" ==> s[0] == '-' && '-' !in s[1..] && Value(s[1..]) == index)
  {
    if index > 1 {
      DecimalRead(index);
      ZFillRead(Decimal(index));
      assert IndexSuffix(index)[1..] == ZFill2(Decimal(index));
    }
  }

  // Two texts cut at the last dash.
  lemma {:induction false} CutLast(a: string, x: string, b: string, y: string)
    requires '-' !in x && '-' !in y
    requires a + "-" + x == b + "-" + y
    ensures a == b && x == y
    decreases |x|
  {
    var s, t := a + "-" + x, b + "-" + y;
    assert x != "" ==> s[|s| - 1] == x[|x| - 1] && s[|s| - 1] in x;
    assert y != "" ==> t[|t| - 1] == y[|y| - 1] && t[|t| - 1] in y;
    assert x == "" ==> s[|s| - 1] == '-' && s[..|s| - 1] == a;
    assert y == "" ==> t[|t| - 1] == '-' && t[..|t| - 1] == b;
    if x != "" {
      assert s[..|s| - 1] == a + "-" + x[..|x| - 1] && t[..|t| - 1] == b + "-" + y[..|y| - 1];
      CutLast(a, x[..|x| - 1], b, y[..|y| - 1]);
      assert x == x[..|x| - 1] + [x[|x| - 1]] && y == y[..|y| - 1] + [y[|y| - 1]];
    }
  }

  lemma SuffixesRead(a: string, k: int, b: string, n: int)
    requires k > 1 && n > 1 && a + IndexSuffix(k) == b + IndexSuffix(n)
    ensures a == b && k == n
  {
    Dashed(a, k);
    Dashed(b, n);
    CutLast(a, ZFill2(Decimal(k)), b, ZFill2(Decimal(n)));
  }

  lemma Dashed(a: string, k: int)
    requires k > 1
    ensures a + IndexSuffix(k) == a + "-" + ZFill2(Decimal(k))
    ensures '-' !in ZFill2(Decimal(k)) && Value(ZFill2(Decimal(k))) == k
  {
    DecimalRead(k);
    ZFillRead(Decimal(k));
  }

  lemma OneRendered(urls: Urls, c: Component, tools: set<string>)
    requires SlashedOnly(urls) && AllUndotted(tools) && IsOver(c, tools)
    ensures RenderOne(urls, c) == c.tool.value + IndexSuffix(EffectiveIndex(c))
    ensures RenderOne(urls, c) != "" && '.' !in RenderOne(urls, c) && '/' !in RenderOne(urls, c)
  {
    SuffixRead(EffectiveIndex(c));
  }

  lemma OneRead(urls: Urls, a: Component, b: Component, tools: set<string>)
    requires SlashedOnly(urls) && AllUndotted(tools) && NoClash(tools) && IsOver(a, tools) && IsOver(b, tools)
    ensures RenderOne(urls, a) == RenderOne(urls, b) <==> Shown(a) == Shown(b)
  {
    var t, k, t', n := a.tool.value, EffectiveIndex(a), b.tool.value, EffectiveIndex(b);
    OneRendered(urls, a, tools);
    OneRendered(urls, b, tools);
    SuffixRead(k);
    SuffixRead(n);
    assert !Clash(t, t', k) && !Clash(t', t, n);
    if k > 1 && n > 1 && RenderOne(urls, a) == RenderOne(urls, b) {
      SuffixesRead(t, k, t', n);
    }
    assert t + "" == t && t' + "" == t';
  }

  // What is left of a joined path after its first part.
  function Rest(parts: seq<string>): string {
    if |parts| <= 1 then "" else "." + Join(parts[1..])
  }

  ghost predicate PlainParts(parts: seq<string>) {
    forall i :: 0 <= i < |parts| ==> parts[i] != "" && '.' !in parts[i] && '/' !in parts[i]
  }

  lemma JoinFirst(parts: seq<string>)
    requires parts != []
    ensures Join(parts) == parts[0] + Rest(parts)
  {
  }

  lemma {:induction false} JoinInjective(a: seq<string>, b: seq<string>)
    requires PlainParts(a) && PlainParts(b) && Join(a) == Join(b)
    ensures a == b
    decreases |a|
  {
    EmptyJoin(a);
    EmptyJoin(b);
    if a != [] {
      FirstPart(a, b);
      if |a| > 1 {
        JoinInjective(a[1..], b[1..]);
      }
      assert a == [a[0]] + a[1..] && b == [b[0]] + b[1..];
    }
  }

  lemma EmptyJoin(parts: seq<string>)
    requires PlainParts(parts)
    ensures Join(parts) == "" <==> parts == []
  {
    if parts != [] {
      JoinFirst(parts);
    }
  }

  lemma FirstPart(a: seq<string>, b: seq<string>)
    requires PlainParts(a) && PlainParts(b) && a != [] && b != [] && Join(a) == Join(b)
    ensures a[0] == b[0]
    ensures |a| > 1 <==> |b| > 1
    ensures |a| > 1 ==> Join(a[1..]) == Join(b[1..])
  {
    JoinFirst(a);
    JoinFirst(b);
    CutOnce('.', a[0], Rest(a), b[0], Rest(b));
    RestsEqual(a, b);
  }

  lemma RestsEqual(a: seq<string>, b: seq<string>)
    requires a != [] && b != [] && Rest(a) == Rest(b)
    ensures |a| > 1 <==> |b| > 1
    ensures |a| > 1 ==> Join(a[1..]) == Join(b[1..])
  {
    if |a| > 1 && |b| > 1 {
      assert Rest(a)[1..] == Join(a[1..]) && Rest(b)[1..] == Join(b[1..]);
    }
  }

  lemma {:induction false} JoinHasNoSlash(parts: seq<string>)
    requires PlainParts(parts)
    ensures '/' !in Join(parts)
  {
    if |parts| > 1 {
      JoinHasNoSlash(parts[1..]);
    }
  }

  lemma {:induction false} NothingDropped(s: string)
    requires '/' !in s
    ensures DropDots(s) == s
  {
    if |s| >= 2 {
      assert s[1] in s;
      NothingDropped(s[1..]);
      assert s == [s[0]] + s[1..];
    }
  }

  lemma FullNameIsJoin(urls: Urls, origin: seq<Component>, tools: set<string>)
    requires SlashedOnly(urls) && AllUndotted(tools) && Over(origin, tools)
    ensures FullNameOf(urls, origin) == Join(Parts(urls, origin)) && PlainParts(Parts(urls, origin))
  {
    var parts := Parts(urls, origin);
    forall i | 0 <= i < |parts|
      ensures parts[i] != "" && '.' !in parts[i] && '/' !in parts[i]
    {
      OneRendered(urls, origin[i], tools);
    }
    JoinHasNoSlash(parts);
    NothingDropped(Join(parts));
  }

  lemma {:induction false} JoinSnoc(parts: seq<string>, last: string)
    requires parts != []
    ensures Join(parts + [last]) == Join(parts) + "." + last
    decreases |parts|
  {
    assert (parts + [last])[1..] == parts[1..] + [last];
    if |parts| > 1 {
      JoinSnoc(parts[1..], last);
    } else {
      assert Join([last]) == last;
    }
  }

  // A first incarnation is named like its tool; a later one has its index behind a dash, in two
  // digits at least; and a path has the name of what precedes its last component, a dot, and
  // the name of that.
  lemma NameSpelled(urls: Urls, tools: set<string>, origin: seq<Component>, c: Component)
    requires SlashedOnly(urls) && AllUndotted(tools) && Over(origin, tools) && IsOver(c, tools)
    ensures var own := FullNameOf(urls, [c]);
      && (EffectiveIndex(c) <= 1 ==> own == c.tool.value)
      && (1 < EffectiveIndex(c) < 10 ==> own == c.tool.value + "-0" + Decimal(EffectiveIndex(c)))
      && (10 <= EffectiveIndex(c) ==> own == c.tool.value + "-" + Decimal(EffectiveIndex(c)))
      && (origin != [] ==> FullNameOf(urls, origin + [c]) == FullNameOf(urls, origin) + "." + own)
  {
    FullNameIsJoin(urls, [c], tools);
    assert Parts(urls, [c]) == [RenderOne(urls, c)];
    OneRendered(urls, c, tools);
    assert c.tool.value + "" == c.tool.value;
    if origin != [] {
      FullNameIsJoin(urls, origin, tools);
      FullNameIsJoin(urls, origin + [c], tools);
      assert Parts(urls, origin + [c]) == Parts(urls, origin) + [RenderOne(urls, c)];
      JoinSnoc(Parts(urls, origin), RenderOne(urls, c));
    }
    if 1 < EffectiveIndex(c) {
      SpelledIndex(c.tool.value, EffectiveIndex(c));
    }
  }

  lemma SpelledIndex(tool: string, index: nat)
    requires 1 < index
    ensures index < 10 ==> tool + IndexSuffix(index) == tool + "-0" + Decimal(index)
    ensures 10 <= index ==> tool + IndexSuffix(index) == tool + "-" + Decimal(index)
  {
    if 10 <= index {
      assert Decimal(index) == Decimal(index / 10) + [Digit(index % 10)];
    } else {
      assert "-" + ("0" + Decimal(index)) == "-0" + Decimal(index);
    }
  }

  // An external agent is named after two underscores, with no slash left.
  lemma {:induction false} ExternalSpelled(urls: Urls, tool: string)
    requires urls(tool).Some?
    ensures "__" <= SafeName(urls, tool) && '/' !in SafeName(urls, tool)
    ensures '/' !in urls(tool).value ==> SafeName(urls, tool) == "__" + urls(tool).value
  {
    NoneLeft(urls(tool).value);
  }

  lemma {:induction false} NoneLeft(s: string)
    ensures '/' !in ReplaceAll(s, '/', "__")
    ensures '/' !in s ==> ReplaceAll(s, '/', "__") == s
  {
    if s != "" {
      NoneLeft(s[..|s| - 1]);
      assert s == s[..|s| - 1] + [s[|s| - 1]];
    }
  }

  // Two origins have the same name exactly when they are the same path of tools with the same
  // indices, however many digits those have.
  lemma NameTellsOrigin(urls: Urls, tools: set<string>, a: seq<Component>, b: seq<Component>)
    requires SlashedOnly(urls) && AllUndotted(tools) && NoClash(tools) && Over(a, tools) && Over(b, tools)
    ensures FullNameOf(urls, a) == FullNameOf(urls, b) <==> SamePlace(a, b)
  {
    var pa, pb := Parts(urls, a), Parts(urls, b);
    FullNameIsJoin(urls, a, tools);
    FullNameIsJoin(urls, b, tools);
    forall i | 0 <= i < |a| && i < |b|
      ensures pa[i] == pb[i] <==> Shown(a[i]) == Shown(b[i])
    {
      OneRead(urls, a[i], b[i], tools);
    }
    if Join(pa) == Join(pb) {
      JoinInjective(pa, pb);
    }
    if SamePlace(a, b) {
      assert pa == pb;
    }
  }

  ghost predicate NamesTell(urls: Urls, a: seq<Component>, b: seq<Component>)
    requires AllNamed(a) && AllNamed(b)
  {
    FullNameOf(urls, a) == FullNameOf(urls, b) <==> SamePlace(a, b)
  }

  // The name of every origin over these tools tells it apart from all others.
  ghost predicate AllNamesTell(urls: Urls, tools: set<string>) {
    forall a, b :: Over(a, tools) && Over(b, tools) ==> NamesTell(urls, a, b)
  }

  // Names tell origins apart exactly when no tool is named like a later incarnation of another;
  // so always for names without a dash.
  lemma NamesTellExactly(urls: Urls, tools: set<string>)
    requires SlashedOnly(urls) && AllUndotted(tools)
    ensures AllNamesTell(urls, tools) <==> NoClash(tools)
    ensures (forall t :: t in tools ==> Plain(t)) ==> AllNamesTell(urls, tools)
  {
    if forall t :: t in tools ==> Plain(t) {
      PlainNeverClash(tools);
    }
    if NoClash(tools) {
      forall a, b | Over(a, tools) && Over(b, tools)
        ensures NamesTell(urls, a, b)
      {
        NameTellsOrigin(urls, tools, a, b);
      }
    } else {
      var t, t', k :| t in tools && t' in tools && Clash(t, t', k);
      var a, b := [Component(Some(t), Is(k))], [Component(Some(t'), Is(1))];
      assert Over(a, tools) && Over(b, tools);
      ClashConfuses(urls, t, t', k);
      assert !NamesTell(urls, a, b);
    }
  }

  lemma ClashConfuses(urls: Urls, tool: string, other: string, index: int)
    requires SlashedOnly(urls) && Undotted(tool) && Undotted(other) && Clash(tool, other, index)
    ensures var a, b := [Component(Some(tool), Is(index))], [Component(Some(other), Is(1))];
      FullNameOf(urls, a) == FullNameOf(urls, b) && !SamePlace(a, b)
  {
    var a, b := [Component(Some(tool), Is(index))], [Component(Some(other), Is(1))];
    assert RenderOne(urls, a[0]) == other == RenderOne(urls, b[0]) by {
      assert other + "" == other;
    }
    assert Parts(urls, a) == [other] == Parts(urls, b);
    assert Shown(a[0]) != Shown(b[0]);
  }

  // Names without a dash never clash.
  lemma PlainNeverClash(tools: set<string>)
    requires forall t :: t in tools ==> Plain(t)
    ensures NoClash(tools) && AllUndotted(tools)
  {
    forall t, t', k | t in tools && t' in tools
      ensures !Clash(t, t', k)
    {
      SuffixRead(k);
      assert k > 1 ==> (t + IndexSuffix(k))[|t|] == '-';
    }
  }

  function Incarnation(pair: (string, nat)): Component {
    Component(Some(pair.0), Is(pair.1))
  }

  // Two incarnations numbered since the last reset never share a name, wherever they are called
  // from, if no two of the tools clash.
  lemma IncarnationsNamedApart(urls: Urls, tools: set<string>, issued: seq<(string, nat)>, i: nat, j: nat,
                               a: seq<Component>, b: seq<Component>)
    requires SlashedOnly(urls) && AllUndotted(tools) && NoClash(tools)
    requires Numbered(issued) && i < j < |issued|
    requires Over(a + [Incarnation(issued[i])], tools) && Over(b + [Incarnation(issued[j])], tools)
    ensures FullNameOf(urls, a + [Incarnation(issued[i])]) != FullNameOf(urls, b + [Incarnation(issued[j])])
  {
    NeverTwice(issued, i, j);
    StartsAtOne(issued, i);
    StartsAtOne(issued, j);
    LastDiffers(a, b, issued[i], issued[j]);
    NameTellsOrigin(urls, tools, a + [Incarnation(issued[i])], b + [Incarnation(issued[j])]);
  }

  lemma LastDiffers(a: seq<Component>, b: seq<Component>, p: (string, nat), q: (string, nat))
    requires p != q && p.1 >= 1 && q.1 >= 1
    ensures !SamePlace(a + [Incarnation(p)], b + [Incarnation(q)])
  {
    var x, y := a + [Incarnation(p)], b + [Incarnation(q)];
    assert x[|a|] == Incarnation(p) && y[|b|] == Incarnation(q);
    assert Shown(Incarnation(p)) != Shown(Incarnation(q));
  }

  lemma StartsAtOne(issued: seq<(string, nat)>, i: nat)
    requires Numbered(issued) && i < |issued|
    ensures issued[i].1 >= 1
  {
    NoGapNoRepeat(issued, issued[i].0, issued[i].1);
    assert issued[i] in issued;
  }

  // A tool name with a dash can take the name of another tool's incarnation.
  lemma DashConfuses(urls: Urls, tool: string)
    requires SlashedOnly(urls) && Plain(tool)
    ensures !AllNamesTell(urls, {tool, tool + "-02"})
  {
    assert Decimal(2) == "2" && ZFill2("2") == "02" && IndexSuffix(2) == "-02";
    assert Clash(tool, tool + "-02", 2);
    NamesTellExactly(urls, {tool, tool + "-02"});
  }
}
