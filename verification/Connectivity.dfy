// Connectivity reporting: a recursive walk over the tool graph of an agent network that
// shares one mutable set of reported names (connectivity_reporter.py).
module Connectivity {
  import opened PyDicts

  // An entry of a tools list; only strings name agents.
  datatype ToolRef = Named(name: string) | Inline

  // What the walk reads of an agent spec: the value of allow.connectivity (true when absent),
  // `tools` coerced to a list, and `args.tools` coerced to a list of values.
  datatype AgentSpec = AgentSpec(allowConnectivity: bool, tools: seq<ToolRef>, argsTools: seq<ToolRef>)

  // isExternal is the URL test of ExternalAgentParsing.  displaysNone says whether
  // determine_display_as accepts the None that stands for a hidden spec: as documented it
  // would, as written it fails, since it reads a key of its argument.
  datatype Inspector = Inspector(
    specs: map<string, AgentSpec>,
    frontMan: string,
    isExternal: string -> bool,
    displaysNone: bool)

  datatype Report = Report(origin: string, tools: seq<string>)

  datatype Result<+T> = Ok(value: T) | AttributeError

  /* ---------- the graph ---------- */

  predicate IsMissing(g: Inspector, name: string) {
    !g.isExternal(name) && name !in g.specs
  }

  predicate IsHidden(g: Inspector, name: string) {
    !g.isExternal(name) && name in g.specs && !g.specs[name].allowConnectivity
  }

  function NamesIn(refs: seq<ToolRef>): seq<string> {
    if refs == [] then []
    else NamesIn(refs[..|refs| - 1]) + (match refs[|refs| - 1] case Named(n) => [n] case Inline => [])
  }

  // The tools listed for a name: none for external, hidden or missing names.
  function ToolsOf(g: Inspector, name: string): seq<string> {
    if g.isExternal(name) || name !in g.specs || !g.specs[name].allowConnectivity then []
    else Deduped(NamesIn(g.specs[name].tools + g.specs[name].argsTools))
  }

  // The first tool of a name that would be reported and has not been.
  function FirstUnreported(g: Inspector, tools: seq<string>, reported: set<string>): Option<string> {
    if tools == [] then None
    else if tools[0] !in reported && !IsMissing(g, tools[0]) then Some(tools[0])
    else FirstUnreported(g, tools[1..], reported)
  }

  // Depth-first preorder as a rule on the report so far: look back from the end for the
  // latest name with an unreported tool; the first such tool is next.
  function NextOrigin(g: Inspector, order: seq<string>, reported: set<string>): Option<string> {
    if order == [] then None
    else
      var last := order[|order| - 1];
      var next := FirstUnreported(g, ToolsOf(g, last), reported);
      if next.Some? then next else NextOrigin(g, order[..|order| - 1], reported)
  }

  ghost predicate RuleAt(g: Inspector, order: seq<string>, k: nat)
    requires k < |order|
  {
    NextOrigin(g, order[..k], Elements(order[..k])) == Some(order[k])
  }

  ghost predicate FollowsRule(g: Inspector, order: seq<string>) {
    forall k :: 0 < k < |order| ==> RuleAt(g, order, k)
  }

  function Origins(reports: seq<Report>): seq<string> {
    seq(|reports|, i requires 0 <= i < |reports| => reports[i].origin)
  }

  /* ---------- the tools of a name ---------- */

  // Where a name is first listed.
  function FirstListed(refs: seq<ToolRef>, name: string): nat {
    if refs == [] then 0
    else if Named(name) in refs[..|refs| - 1] then FirstListed(refs[..|refs| - 1], name)
    else |refs| - 1
  }

  lemma {:induction false} NamesAre(refs: seq<ToolRef>)
    ensures forall t :: t in NamesIn(refs) <==> Named(t) in refs
  {
    if refs != [] {
      NamesAre(refs[..|refs| - 1]);
      assert refs == refs[..|refs| - 1] + [refs[|refs| - 1]];
    }
  }

  lemma ListedOnce(refs: seq<ToolRef>)
    ensures Distinct(Deduped(NamesIn(refs)))
    ensures forall t :: t in Deduped(NamesIn(refs)) <==> Named(t) in refs
  {
    DedupedIs(NamesIn(refs));
    NamesAre(refs);
  }

  ghost predicate InListOrder(refs: seq<ToolRef>, names: seq<string>) {
    forall p, q :: 0 <= p < q < |names| ==> FirstListed(refs, names[p]) < FirstListed(refs, names[q])
  }

  lemma {:induction false} ListedInOrder(refs: seq<ToolRef>)
    ensures InListOrder(refs, Deduped(NamesIn(refs)))
  {
    if refs != [] {
      var front, last := refs[..|refs| - 1], refs[|refs| - 1];
      assert refs == front + [last];
      var before := Deduped(NamesIn(front));
      ListedInOrder(front);
      ListedOnce(front);
      ListedOneMore(front, last);
      forall p | 0 <= p < |before|
        ensures FirstListed(refs, before[p]) == FirstListed(front, before[p]) < |front|
      {
        assert before[p] in before;
        ListedWithin(front, before[p]);
      }
    }
  }

  lemma ListedOneMore(front: seq<ToolRef>, last: ToolRef)
    ensures var before, after := Deduped(NamesIn(front)), Deduped(NamesIn(front + [last]));
      after == before || (last.Named? && last.name !in before && after == before + [last.name])
  {
    assert (front + [last])[..|front|] == front;
    if last.Named? {
      DedupedSnoc(NamesIn(front), last.name);
    } else {
      assert NamesIn(front) + [] == NamesIn(front);
    }
  }

  lemma {:induction false} ListedWithin(refs: seq<ToolRef>, name: string)
    requires Named(name) in refs
    ensures FirstListed(refs, name) < |refs| && refs[FirstListed(refs, name)] == Named(name)
  {
    var front := refs[..|refs| - 1];
    assert refs == front + [refs[|refs| - 1]];
    if Named(name) in front {
      ListedWithin(front, name);
    }
  }

  // The tools of a name that is external, missing or hidden are none; those of any other are the
  // string entries of both its lists, each once, in the order they are first listed.
  lemma ToolsAre(g: Inspector, name: string)
    ensures g.isExternal(name) || name !in g.specs || !g.specs[name].allowConnectivity ==> ToolsOf(g, name) == []
    ensures !g.isExternal(name) && name in g.specs && g.specs[name].allowConnectivity ==>
      var refs, tools := g.specs[name].tools + g.specs[name].argsTools, ToolsOf(g, name);
      && Distinct(tools)
      && (forall t :: t in tools <==> Named(t) in refs)
      && InListOrder(refs, tools)
  {
    if name in g.specs {
      ListedOnce(g.specs[name].tools + g.specs[name].argsTools);
      ListedInOrder(g.specs[name].tools + g.specs[name].argsTools);
    }
  }

  /* ---------- facts about the rule ---------- */

  lemma {:induction false} FirstUnreportedIs(g: Inspector, tools: seq<string>, reported: set<string>)
    ensures var f := FirstUnreported(g, tools, reported);
      && (f.Some? ==> f.value in tools && f.value !in reported && !IsMissing(g, f.value))
      && (f.None? <==> forall t :: t in tools ==> t in reported || IsMissing(g, t))
  {
    if tools != [] {
      FirstUnreportedIs(g, tools[1..], reported);
      assert tools == [tools[0]] + tools[1..];
    }
  }

  lemma {:induction false} FirstUnreportedAt(g: Inspector, tools: seq<string>, i: nat, reported: set<string>)
    requires i < |tools| && tools[i] !in reported && !IsMissing(g, tools[i])
    requires forall t :: t in tools[..i] ==> t in reported || IsMissing(g, t)
    ensures FirstUnreported(g, tools, reported) == Some(tools[i])
  {
    if i > 0 {
      assert tools[0] in tools[..i];
      assert tools[1..][..i - 1] == tools[1..i];
      forall t | t in tools[1..][..i - 1] ensures t in reported || IsMissing(g, t) {
        assert t in tools[..i];
      }
      FirstUnreportedAt(g, tools[1..], i - 1, reported);
    }
  }

  ghost predicate Exhausted(g: Inspector, order: seq<string>, reported: set<string>) {
    forall n, t :: n in order && t in ToolsOf(g, n) ==> t in reported || IsMissing(g, t)
  }

  lemma {:induction false} NextIs(g: Inspector, order: seq<string>, reported: set<string>)
    ensures var f := NextOrigin(g, order, reported);
      && (f.None? <==> Exhausted(g, order, reported))
      && (f.Some? ==> f.value !in reported && !IsMissing(g, f.value)
                      && exists j :: 0 <= j < |order| && f.value in ToolsOf(g, order[j]))
  {
    if order != [] {
      var front, last := order[..|order| - 1], order[|order| - 1];
      assert order == front + [last];
      FirstUnreportedIs(g, ToolsOf(g, last), reported);
      NextIs(g, front, reported);
      if FirstUnreported(g, ToolsOf(g, last), reported).None? && NextOrigin(g, front, reported).Some? {
        var j :| 0 <= j < |front| && NextOrigin(g, front, reported).value in ToolsOf(g, front[j]);
        assert order[j] == front[j];
      }
    }
  }

  // Every tool of these names was reported or is missing.
  ghost predicate SpentFrom(g: Inspector, order: seq<string>, j: nat, reported: set<string>) {
    forall m, t :: j <= m < |order| && t in ToolsOf(g, order[m]) ==> t in reported || IsMissing(g, t)
  }

  ghost predicate PicksTool(g: Inspector, order: seq<string>, j: nat, i: nat, next: string, reported: set<string>) {
    && j < |order| && i < |ToolsOf(g, order[j])| && ToolsOf(g, order[j])[i] == next
    && (forall t :: t in ToolsOf(g, order[j])[..i] ==> t in reported || IsMissing(g, t))
    && SpentFrom(g, order, j + 1, reported)
  }

  lemma {:induction false} FirstUnreportedWhere(g: Inspector, tools: seq<string>, reported: set<string>)
    returns (i: nat)
    requires FirstUnreported(g, tools, reported).Some?
    ensures i < |tools| && tools[i] == FirstUnreported(g, tools, reported).value
    ensures forall t :: t in tools[..i] ==> t in reported || IsMissing(g, t)
  {
    if tools[0] !in reported && !IsMissing(g, tools[0]) {
      i := 0;
    } else {
      var k := FirstUnreportedWhere(g, tools[1..], reported);
      i := k + 1;
      assert tools[..i] == [tools[0]] + tools[1..][..k];
    }
  }

  lemma PicksLater(g: Inspector, front: seq<string>, last: string, j: nat, i: nat, next: string, reported: set<string>)
    requires PicksTool(g, front, j, i, next, reported)
    requires forall t :: t in ToolsOf(g, last) ==> t in reported || IsMissing(g, t)
    ensures PicksTool(g, front + [last], j, i, next, reported)
  {
    var order := front + [last];
    assert order[j] == front[j];
    forall m, t | j + 1 <= m < |order| && t in ToolsOf(g, order[m])
      ensures t in reported || IsMissing(g, t)
    {
      assert m < |front| ==> order[m] == front[m];
    }
  }

  lemma PicksOfLast(g: Inspector, front: seq<string>, last: string, reported: set<string>) returns (i: nat)
    requires FirstUnreported(g, ToolsOf(g, last), reported).Some?
    ensures PicksTool(g, front + [last], |front|, i, FirstUnreported(g, ToolsOf(g, last), reported).value, reported)
  {
    i := FirstUnreportedWhere(g, ToolsOf(g, last), reported);
    assert (front + [last])[|front|] == last;
  }

  // Depth first: next is the first unreported tool, in the order listed, of the latest name in
  // the report that has one.
  lemma {:induction false} NextIsDepthFirst(g: Inspector, order: seq<string>, reported: set<string>)
    returns (j: nat, i: nat)
    requires NextOrigin(g, order, reported).Some?
    ensures PicksTool(g, order, j, i, NextOrigin(g, order, reported).value, reported)
  {
    var front, last := order[..|order| - 1], order[|order| - 1];
    assert front + [last] == order;
    if FirstUnreported(g, ToolsOf(g, last), reported).Some? {
      j := |front|;
      i := PicksOfLast(g, front, last, reported);
    } else {
      FirstUnreportedIs(g, ToolsOf(g, last), reported);
      j, i := NextIsDepthFirst(g, front, reported);
      PicksLater(g, front, last, j, i, NextOrigin(g, order, reported).value, reported);
    }
  }

  // Looking back over a + b: b decides unless it is exhausted.
  lemma {:induction false} NextOverAppend(g: Inspector, a: seq<string>, b: seq<string>, reported: set<string>)
    ensures NextOrigin(g, a + b, reported) ==
      if NextOrigin(g, b, reported).Some? then NextOrigin(g, b, reported) else NextOrigin(g, a, reported)
  {
    if b == [] {
      assert a + b == a;
    } else {
      assert (a + b)[..|a + b| - 1] == a + b[..|b| - 1];
      NextOverAppend(g, a, b[..|b| - 1], reported);
    }
  }

  /* ---------- reachability ---------- */

  // A path of names that are present or external; only an internal node that allows it has
  // tools to go on to.
  ghost predicate IsPath(g: Inspector, path: seq<string>) {
    && path != [] && path[0] == g.frontMan
    && (forall i :: 0 <= i < |path| ==> g.isExternal(path[i]) || path[i] in g.specs)
    && (forall i :: 0 < i < |path| ==> path[i] in ToolsOf(g, path[i - 1]))
  }

  ghost predicate Reachable(g: Inspector, name: string) {
    exists path :: IsPath(g, path) && path[|path| - 1] == name
  }

  lemma PathExtends(g: Inspector, from: string, to: string)
    requires Reachable(g, from) && to in ToolsOf(g, from) && !IsMissing(g, to)
    ensures Reachable(g, to)
  {
    var path :| IsPath(g, path) && path[|path| - 1] == from;
    assert IsPath(g, path + [to]);
  }

  lemma {:induction false} RuleReaches(g: Inspector, order: seq<string>, k: nat)
    requires FollowsRule(g, order) && k < |order| && order[0] == g.frontMan && !IsMissing(g, g.frontMan)
    ensures Reachable(g, order[k])
  {
    if k == 0 {
      assert IsPath(g, [g.frontMan]);
    } else {
      assert RuleAt(g, order, k);
      NextIs(g, order[..k], Elements(order[..k]));
      var j :| 0 <= j < k && order[k] in ToolsOf(g, order[..k][j]);
      RuleReaches(g, order, j);
      PathExtends(g, order[j], order[k]);
    }
  }

  lemma {:induction false} ClosedHolds(g: Inspector, order: seq<string>, path: seq<string>)
    requires order != [] && order[0] == g.frontMan && Exhausted(g, order, Elements(order))
    requires IsPath(g, path)
    ensures path[|path| - 1] in order
  {
    if |path| > 1 {
      ClosedHolds(g, order, path[..|path| - 1]);
      assert !IsMissing(g, path[|path| - 1]);
      assert path[|path| - 1] in ToolsOf(g, path[|path| - 2]);
    }
  }

  lemma {:induction false} RuleDistinct(g: Inspector, order: seq<string>)
    requires FollowsRule(g, order)
    ensures Distinct(order)
  {
    if order != [] {
      var front := order[..|order| - 1];
      forall k | 0 < k < |front| ensures RuleAt(g, front, k) {
        assert front[..k] == order[..k] && RuleAt(g, order, k);
      }
      RuleDistinct(g, front);
      if |order| > 1 {
        assert RuleAt(g, order, |front|);
        NextIs(g, front, Elements(front));
        assert front == order[..|order| - 1];
      }
    }
  }

  // An order that starts at the front man, follows the rule and leaves nothing unreported
  // holds exactly the reachable names, each once.
  lemma CompleteOrder(g: Inspector, order: seq<string>)
    requires FollowsRule(g, order) && order != [] && order[0] == g.frontMan && !IsMissing(g, g.frontMan)
    requires NextOrigin(g, order, Elements(order)).None?
    ensures Distinct(order)
    ensures forall n :: n in order <==> Reachable(g, n)
  {
    RuleDistinct(g, order);
    NextIs(g, order, Elements(order));
    forall n ensures n in order <==> Reachable(g, n) {
      if n in order {
        var k :| 0 <= k < |order| && order[k] == n;
        RuleReaches(g, order, k);
      }
      if Reachable(g, n) {
        var path :| IsPath(g, path) && path[|path| - 1] == n;
        ClosedHolds(g, order, path);
      }
    }
  }

  lemma {:induction false} SamePrefix(g: Inspector, a: seq<string>, b: seq<string>, k: nat)
    requires FollowsRule(g, a) && FollowsRule(g, b) && 1 <= k <= |a| && k <= |b| && a[0] == b[0]
    ensures a[..k] == b[..k]
  {
    if k > 1 {
      SamePrefix(g, a, b, k - 1);
      assert RuleAt(g, a, k - 1) && RuleAt(g, b, k - 1);
      assert a[..k] == a[..k - 1] + [a[k - 1]] && b[..k] == b[..k - 1] + [b[k - 1]];
    }
  }

  lemma NotLonger(g: Inspector, a: seq<string>, b: seq<string>)
    requires FollowsRule(g, a) && FollowsRule(g, b) && a != [] && b != [] && a[0] == b[0]
    requires NextOrigin(g, b, Elements(b)).None?
    ensures |a| <= |b|
  {
    assert |b| < |a| ==> RuleAt(g, a, |b|);
    assert b[..|b|] == b;
    if |b| < |a| {
      SamePrefix(g, a, b, |b|);
    }
  }

  // The rule leaves no choice: there is one such order.
  lemma RuleIsDeterministic(g: Inspector, a: seq<string>, b: seq<string>)
    requires FollowsRule(g, a) && FollowsRule(g, b) && a != [] && b != [] && a[0] == b[0]
    requires NextOrigin(g, a, Elements(a)).None? && NextOrigin(g, b, Elements(b)).None?
    ensures a == b
  {
    NotLonger(g, a, b);
    NotLonger(g, b, a);
    SamePrefix(g, a, b, |a|);
    assert a[..|a|] == a && b[..|b|] == b;
  }
}
