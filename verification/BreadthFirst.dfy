// The documented order of the report: when the depth-first order in which it is made is the
// breadth-first order the documentation speaks of.
module BreadthFirst {
  import opened PyDicts
  import opened Connectivity
  import opened ConnectivityReporting

  predicate IsPending(g: Inspector, name: string, reported: set<string>) {
    FirstUnreported(g, ToolsOf(g, name), reported).Some?
  }

  // Breadth-first as a rule on the report so far: the earliest name with an unreported tool; the
  // first such tool is next.
  function NextBreadth(g: Inspector, order: seq<string>, reported: set<string>): Option<string> {
    if order == [] then None
    else
      var next := FirstUnreported(g, ToolsOf(g, order[0]), reported);
      if next.Some? then next else NextBreadth(g, order[1..], reported)
  }

  ghost predicate BreadthAt(g: Inspector, order: seq<string>, k: nat)
    requires k < |order|
  {
    NextBreadth(g, order[..k], Elements(order[..k])) == Some(order[k])
  }

  ghost predicate FollowsBreadth(g: Inspector, order: seq<string>) {
    forall k :: 0 < k < |order| ==> BreadthAt(g, order, k)
  }

  // Nothing it lists would be reported.
  ghost predicate NoPresentTools(g: Inspector, name: string) {
    forall t :: t in ToolsOf(g, name) ==> IsMissing(g, t)
  }

  // Only the last present tool of a name goes further down.
  ghost predicate SlimAt(g: Inspector, name: string) {
    var tools := ToolsOf(g, name);
    forall i, j :: 0 <= i < j < |tools| && !IsMissing(g, tools[i]) && !IsMissing(g, tools[j]) ==>
      NoPresentTools(g, tools[i])
  }

  ghost predicate Slim(g: Inspector) {
    forall u :: Reachable(g, u) ==> SlimAt(g, u)
  }

  // Every present name has one reachable name that lists it, and the front man none.
  ghost predicate IsTree(g: Inspector) {
    && (forall u :: Reachable(g, u) ==> g.frontMan !in ToolsOf(g, u))
    && (forall u, v, t ::
          Reachable(g, u) && Reachable(g, v) && t in ToolsOf(g, u) && t in ToolsOf(g, v) && !IsMissing(g, t) ==> u == v)
  }

  // A depth-first order from the front man on, with nothing left to report.
  ghost predicate IsWhole(g: Inspector, order: seq<string>) {
    && FollowsRule(g, order) && order != [] && order[0] == g.frontMan && !IsMissing(g, g.frontMan)
    && NextOrigin(g, order, Elements(order)).None?
  }

  /* ---------- which name decides ---------- */

  // The name at j is pending, its first unreported tool is x, and no later name is pending.
  ghost predicate LatestPending(g: Inspector, order: seq<string>, reported: set<string>, j: nat, x: string) {
    && j < |order|
    && FirstUnreported(g, ToolsOf(g, order[j]), reported) == Some(x)
    && forall m :: j < m < |order| ==> !IsPending(g, order[m], reported)
  }

  ghost predicate EarliestPending(g: Inspector, order: seq<string>, reported: set<string>, j: nat, x: string) {
    && j < |order|
    && FirstUnreported(g, ToolsOf(g, order[j]), reported) == Some(x)
    && forall m :: 0 <= m < j ==> !IsPending(g, order[m], reported)
  }

  lemma {:induction false} LatestDecides(g: Inspector, order: seq<string>, reported: set<string>) returns (j: nat)
    requires NextOrigin(g, order, reported).Some?
    ensures LatestPending(g, order, reported, j, NextOrigin(g, order, reported).value)
  {
    var front, last := order[..|order| - 1], order[|order| - 1];
    if IsPending(g, last, reported) {
      j := |order| - 1;
    } else {
      j := LatestDecides(g, front, reported);
      StillLatest(g, order, reported, j, NextOrigin(g, order, reported).value);
    }
  }

  lemma StillLatest(g: Inspector, order: seq<string>, reported: set<string>, j: nat, x: string)
    requires order != [] && LatestPending(g, order[..|order| - 1], reported, j, x)
    requires !IsPending(g, order[|order| - 1], reported)
    ensures LatestPending(g, order, reported, j, x)
  {
    var front := order[..|order| - 1];
    assert order[j] == front[j];
    forall m | j < m < |order|
      ensures !IsPending(g, order[m], reported)
    {
      assert m < |front| ==> order[m] == front[m];
    }
  }

  lemma {:induction false} EarliestDecides(g: Inspector, order: seq<string>, reported: set<string>) returns (j: nat)
    requires NextBreadth(g, order, reported).Some?
    ensures EarliestPending(g, order, reported, j, NextBreadth(g, order, reported).value)
  {
    if IsPending(g, order[0], reported) {
      j := 0;
    } else {
      var rest := order[1..];
      j := EarliestDecides(g, rest, reported);
      forall m | 0 <= m < j + 1
        ensures !IsPending(g, order[m], reported)
      {
        assert m > 0 ==> order[m] == rest[m - 1];
      }
      j := j + 1;
    }
  }

  lemma {:induction false} BreadthPicks(g: Inspector, order: seq<string>, reported: set<string>, j: nat, x: string)
    requires EarliestPending(g, order, reported, j, x)
    ensures NextBreadth(g, order, reported) == Some(x)
  {
    if j > 0 {
      assert !IsPending(g, order[0], reported);
      BreadthPicks(g, order[1..], reported, j - 1, x);
    }
  }

  /* ---------- slim graphs ---------- */

  // No two names of a report so far are pending.
  ghost predicate OnePending(g: Inspector, order: seq<string>, reported: set<string>) {
    forall i, j :: 0 <= i < j < |order| ==> !IsPending(g, order[i], reported) || !IsPending(g, order[j], reported)
  }

  // A tool that was passed over is reported or missing.
  lemma {:induction false} FirstIsFirst(g: Inspector, tools: seq<string>, reported: set<string>) returns (i: nat)
    requires FirstUnreported(g, tools, reported).Some?
    ensures i < |tools| && FirstUnreported(g, tools, reported) == Some(tools[i])
    ensures forall m :: 0 <= m < i ==> tools[m] in reported || IsMissing(g, tools[m])
  {
    if tools[0] !in reported && !IsMissing(g, tools[0]) {
      i := 0;
    } else {
      i := FirstIsFirst(g, tools[1..], reported);
      forall m | 0 <= m < i + 1
        ensures tools[m] in reported || IsMissing(g, tools[m])
      {
        assert m > 0 ==> tools[m] == tools[1..][m - 1];
      }
      i := i + 1;
    }
  }

  lemma StillPending(g: Inspector, name: string, small: set<string>, large: set<string>)
    requires small <= large && IsPending(g, name, large)
    ensures IsPending(g, name, small)
  {
    FirstUnreportedIs(g, ToolsOf(g, name), small);
    FirstUnreportedIs(g, ToolsOf(g, name), large);
  }

  // Once its first unreported tool x is reported, a slim name and x are not both pending.
  lemma SlimNotBoth(g: Inspector, name: string, x: string, reported: set<string>)
    requires SlimAt(g, name) && FirstUnreported(g, ToolsOf(g, name), reported) == Some(x)
    requires IsPending(g, name, reported + {x})
    ensures !IsPending(g, x, reported + {x})
  {
    var tools := ToolsOf(g, name);
    var i := FirstIsFirst(g, tools, reported);
    var j := FirstIsFirst(g, tools, reported + {x});
    FirstUnreportedIs(g, tools, reported);
    FirstUnreportedIs(g, tools, reported + {x});
    assert i < j;
    assert NoPresentTools(g, x);
    FirstUnreportedIs(g, ToolsOf(g, x), reported + {x});
  }

  lemma {:induction false} SlimOnePending(g: Inspector, order: seq<string>, k: nat)
    requires Slim(g) && IsWhole(g, order) && 0 < k <= |order|
    ensures OnePending(g, order[..k], Elements(order[..k]))
  {
    if k > 1 {
      SlimOnePending(g, order, k - 1);
      SlimNextPending(g, order, k - 1);
    } else {
      assert |order[..k]| == 1;
    }
  }

  lemma SlimNextPending(g: Inspector, order: seq<string>, k: nat)
    requires Slim(g) && IsWhole(g, order) && 0 < k < |order|
    requires OnePending(g, order[..k], Elements(order[..k]))
    ensures OnePending(g, order[..k + 1], Elements(order[..k + 1]))
  {
    var before, x := order[..k], order[k];
    assert order[..k + 1] == before + [x] && RuleAt(g, order, k);
    ElementsAppend(before, x);
    var u := LatestDecides(g, before, Elements(before));
    RuleReaches(g, order, u);
    assert before[u] == order[u];
    OneMorePending(g, before, u, x);
  }

  lemma OneMorePending(g: Inspector, before: seq<string>, u: nat, x: string)
    requires OnePending(g, before, Elements(before)) && u < |before| && SlimAt(g, before[u])
    requires FirstUnreported(g, ToolsOf(g, before[u]), Elements(before)) == Some(x)
    ensures OnePending(g, before + [x], Elements(before) + {x})
  {
    var old', now, order := Elements(before), Elements(before) + {x}, before + [x];
    forall i | 0 <= i < |before| && IsPending(g, before[i], now)
      ensures i == u && !IsPending(g, x, now)
    {
      StillPending(g, before[i], old', now);
      assert IsPending(g, before[u], old');
      if i == u {
        SlimNotBoth(g, before[u], x, old');
      }
    }
  }

  // In every graph in which only last tools go further down, cycles included, the depth-first
  // order is the breadth-first order.
  lemma SlimIsBreadthFirst(g: Inspector, order: seq<string>)
    requires Slim(g) && IsWhole(g, order)
    ensures FollowsBreadth(g, order)
  {
    forall k | 0 < k < |order|
      ensures BreadthAt(g, order, k)
    {
      var before := order[..k];
      assert RuleAt(g, order, k);
      SlimOnePending(g, order, k);
      var j := LatestDecides(g, before, Elements(before));
      assert IsPending(g, before[j], Elements(before));
      BreadthPicks(g, before, Elements(before), j, order[k]);
    }
  }

  /* ---------- trees ---------- */

  lemma ToolsDistinct(g: Inspector, name: string, i: nat, j: nat)
    requires i < j < |ToolsOf(g, name)|
    ensures ToolsOf(g, name)[i] != ToolsOf(g, name)[j]
  {
    var refs := g.specs[name].tools + g.specs[name].argsTools;
    DedupedIs(NamesIn(refs));
    DistinctAt(ToolsOf(g, name), j);
    assert ToolsOf(g, name)[i] in ToolsOf(g, name)[..j];
  }

  // Where a name is in a whole order.
  lemma PositionOf(g: Inspector, order: seq<string>, name: string) returns (k: nat)
    requires IsWhole(g, order) && Reachable(g, name)
    ensures k < |order| && order[k] == name
  {
    CompleteOrder(g, order);
    assert name in order;
    k :| 0 <= k < |order| && order[k] == name;
  }

  // In a tree the one name that lists another is reported before it.
  lemma ListerFirst(g: Inspector, order: seq<string>, u: nat, t: nat)
    requires IsWhole(g, order) && IsTree(g) && u < |order| && t < |order| && order[t] in ToolsOf(g, order[u])
    ensures u < t
  {
    RuleReaches(g, order, u);
    CompleteOrder(g, order);
    DistinctMeans(order);
    assert t > 0;
    assert RuleAt(g, order, t);
    NextIs(g, order[..t], Elements(order[..t]));
    var j :| 0 <= j < t && order[t] in ToolsOf(g, order[..t][j]);
    RuleReaches(g, order, j);
  }

  // The name that decides for a tool in a tree is the one that lists it.
  lemma DecidesForOwn(g: Inspector, order: seq<string>, k: nat, j: nat, u: nat)
    requires IsWhole(g, order) && IsTree(g) && j < k < |order| && u < |order|
    requires FirstUnreported(g, ToolsOf(g, order[j]), Elements(order[..k])) == Some(order[k])
    requires order[k] in ToolsOf(g, order[u])
    ensures u == j
  {
    FirstUnreportedIs(g, ToolsOf(g, order[j]), Elements(order[..k]));
    RuleReaches(g, order, j);
    RuleReaches(g, order, u);
    CompleteOrder(g, order);
    DistinctMeans(order);
  }

  // Depth-first, nothing after the name that lists it is pending when a tool is taken up.
  lemma ListerDecides(g: Inspector, order: seq<string>, u: nat, b: nat)
    requires IsWhole(g, order) && IsTree(g) && u < |order| && b < |order| && order[b] in ToolsOf(g, order[u])
    ensures u < b && LatestPending(g, order[..b], Elements(order[..b]), u, order[b])
  {
    ListerFirst(g, order, u, b);
    assert RuleAt(g, order, b);
    var l := LatestDecides(g, order[..b], Elements(order[..b]));
    assert order[..b][l] == order[l];
    DecidesForOwn(g, order, b, l, u);
  }

  // The tools listed before it are dealt with by then.
  lemma ListedBefore(g: Inspector, order: seq<string>, u: nat, i: nat, a: nat, b: nat)
    requires IsWhole(g, order) && IsTree(g) && u < |order| && a < |order| && b < |order|
    requires i < |ToolsOf(g, order[u])| && order[a] == ToolsOf(g, order[u])[i] && !IsMissing(g, order[a])
    requires order[b] in ToolsOf(g, order[u])[i + 1..]
    ensures a < b
  {
    ListerDecides(g, order, u, b);
    var f := FirstIsFirst(g, ToolsOf(g, order[u]), Elements(order[..b]));
    EarlierReported(g, order, u, i, b, f, Elements(order[..b]));
    ReportedAt(g, order, b, a);
  }

  // Depth-first, what a tool lists comes before the tools listed after it.
  lemma DeeperFirst(g: Inspector, order: seq<string>, u: nat, i: nat, a: nat, b: nat, c: nat)
    requires IsWhole(g, order) && IsTree(g)
    requires u < |order| && a < |order| && b < |order| && c < |order|
    requires i < |ToolsOf(g, order[u])| && order[a] == ToolsOf(g, order[u])[i]
    requires order[b] in ToolsOf(g, order[u])[i + 1..] && order[c] in ToolsOf(g, order[a])
    requires !IsMissing(g, order[a]) && !IsMissing(g, order[c])
    ensures c < b
  {
    ListerDecides(g, order, u, b);
    ListerFirst(g, order, u, a);
    ListedBefore(g, order, u, i, a, b);
    assert order[..b][a] == order[a];
    assert !IsPending(g, order[a], Elements(order[..b]));
    FirstUnreportedIs(g, ToolsOf(g, order[a]), Elements(order[..b]));
    ReportedAt(g, order, b, c);
  }

  // A name that is reported by k is reported where it stands in the order.
  lemma ReportedAt(g: Inspector, order: seq<string>, k: nat, i: nat)
    requires IsWhole(g, order) && k <= |order| && i < |order| && order[i] in Elements(order[..k])
    ensures i < k
  {
    var n :| 0 <= n < k && order[..k][n] == order[i];
    CompleteOrder(g, order);
    DistinctMeans(order);
  }

  lemma EarlierReported(g: Inspector, order: seq<string>, u: nat, i: nat, b: nat, f: nat, reported: set<string>)
    requires u < |order| && b < |order| && i < |ToolsOf(g, order[u])| && f < |ToolsOf(g, order[u])|
    requires order[b] in ToolsOf(g, order[u])[i + 1..] && ToolsOf(g, order[u])[f] == order[b]
    requires !IsMissing(g, ToolsOf(g, order[u])[i])
    requires forall m :: 0 <= m < f ==> ToolsOf(g, order[u])[m] in reported || IsMissing(g, ToolsOf(g, order[u])[m])
    ensures ToolsOf(g, order[u])[i] in reported
  {
    var tools := ToolsOf(g, order[u]);
    var j :| 0 <= j < |tools[i + 1..]| && tools[i + 1..][j] == order[b];
    assert tools[i + 1 + j] == order[b];
    if f <= i {
      ToolsDistinct(g, order[u], f, i + 1 + j);
    }
  }

  // Breadth-first, it comes after them.
  lemma DeeperLast(g: Inspector, order: seq<string>, u: nat, a: nat, b: nat, c: nat)
    requires IsWhole(g, order) && IsTree(g) && FollowsBreadth(g, order)
    requires u < |order| && a < |order| && b < |order| && c < |order|
    requires order[a] in ToolsOf(g, order[u]) && order[b] in ToolsOf(g, order[u]) && order[c] in ToolsOf(g, order[a])
    requires !IsMissing(g, order[b])
    ensures b < c
  {
    var before := order[..c];
    var reported := Elements(before);
    ListerFirst(g, order, u, a);
    ListerFirst(g, order, a, c);
    assert BreadthAt(g, order, c);
    var e := EarliestDecides(g, before, reported);
    DecidesForOwn(g, order, c, e, a);
    assert !IsPending(g, before[u], reported);
    FirstUnreportedIs(g, ToolsOf(g, order[u]), reported);
    ReportedAt(g, order, c, b);
  }

  lemma TreeIsSlimAt(g: Inspector, order: seq<string>, name: string, i: nat, j: nat, tool: string)
    requires IsWhole(g, order) && IsTree(g) && FollowsBreadth(g, order) && Reachable(g, name)
    requires i < j < |ToolsOf(g, name)| && !IsMissing(g, ToolsOf(g, name)[i]) && !IsMissing(g, ToolsOf(g, name)[j])
    requires tool in ToolsOf(g, ToolsOf(g, name)[i])
    ensures IsMissing(g, tool)
  {
    var tools := ToolsOf(g, name);
    if !IsMissing(g, tool) {
      PathExtends(g, name, tools[i]);
      PathExtends(g, name, tools[j]);
      PathExtends(g, tools[i], tool);
      var u := PositionOf(g, order, name);
      var a := PositionOf(g, order, tools[i]);
      var b := PositionOf(g, order, tools[j]);
      var c := PositionOf(g, order, tool);
      ToolsDistinct(g, name, i, j);
      assert tools[i + 1..][j - i - 1] == tools[j];
      DeeperFirst(g, order, u, i, a, b, c);
      DeeperLast(g, order, u, a, b, c);
      assert false;
    }
  }

  // Where every name is listed once, the report is breadth-first exactly when only last tools go
  // further down.
  lemma BreadthFirstExactly(g: Inspector, order: seq<string>)
    requires IsWhole(g, order) && IsTree(g)
    ensures FollowsBreadth(g, order) <==> Slim(g)
  {
    if Slim(g) {
      SlimIsBreadthFirst(g, order);
    }
    if FollowsBreadth(g, order) {
      forall name | Reachable(g, name)
        ensures SlimAt(g, name)
      {
        var tools := ToolsOf(g, name);
        forall i, j, t | 0 <= i < j < |tools| && !IsMissing(g, tools[i]) && !IsMissing(g, tools[j]) && t in ToolsOf(g, tools[i])
          ensures IsMissing(g, t)
        {
          TreeIsSlimAt(g, order, name, i, j, t);
        }
      }
    }
  }

  // The same of a report as it is made.
  lemma ReportIsBreadthFirst(g: Inspector, reports: seq<Report>)
    requires Complete(g, reports) && !IsMissing(g, g.frontMan)
    ensures Slim(g) ==> FollowsBreadth(g, Origins(reports))
    ensures IsTree(g) ==> (FollowsBreadth(g, Origins(reports)) <==> Slim(g))
  {
    var order := Origins(reports);
    NextIs(g, order, Elements(order));
    if NextOrigin(g, order, Elements(order)).Some? {
      var x := NextOrigin(g, order, Elements(order)).value;
      var j :| 0 <= j < |order| && x in ToolsOf(g, order[j]);
      PathExtends(g, order[j], x);
      assert false;
    }
    assert order[0] == g.frontMan;
    if Slim(g) {
      SlimIsBreadthFirst(g, order);
    }
    if IsTree(g) {
      BreadthFirstExactly(g, order);
    }
  }

  /* ---------- instances ---------- */

  // A front man with tools a and b, and c below a, is a tree that is not slim: c comes before b.
  lemma DepthFirstNotBreadthFirst(g: Inspector, a: string, b: string, c: string, order: seq<string>)
    requires Distinct([g.frontMan, a, c, b])
    requires !IsMissing(g, a) && !IsMissing(g, b) && !IsMissing(g, c)
    requires ToolsOf(g, g.frontMan) == [a, b] && ToolsOf(g, a) == [c] && ToolsOf(g, b) == [] && ToolsOf(g, c) == []
    requires IsWhole(g, order)
    ensures order == [g.frontMan, a, c, b] && !FollowsBreadth(g, order)
  {
    FourApart(g.frontMan, a, c, b);
    FourInOrder(g, a, b, c, 1, order);
    FourTree(g, a, b, c, order);
    NotSlim(g, a, c);
    BreadthFirstExactly(g, order);
  }

  // Elsewhere an order can be both without that: here c is also a tool of the front man.
  lemma BreadthFirstThoughNotSlim(g: Inspector, a: string, b: string, c: string, order: seq<string>)
    requires Distinct([g.frontMan, a, c, b])
    requires !IsMissing(g, a) && !IsMissing(g, b) && !IsMissing(g, c)
    requires ToolsOf(g, g.frontMan) == [a, c, b] && ToolsOf(g, a) == [c] && ToolsOf(g, b) == [] && ToolsOf(g, c) == []
    requires IsWhole(g, order)
    ensures order == [g.frontMan, a, c, b] && FollowsBreadth(g, order) && !Slim(g)
  {
    FourApart(g.frontMan, a, c, b);
    FourInOrder(g, a, b, c, 2, order);
    NotSlim(g, a, c);
    FrontManNext(g, order, 1, [a, c, b]);
    FrontManNext(g, order, 2, [a, c, b]);
    FrontManNext(g, order, 3, [a, c, b]);
    assert forall k :: 0 < k < |order| ==> BreadthAt(g, order, k) by {
      assert |order| == 4;
    }
  }

  // What the front man lists comes next while nothing else has.
  lemma FrontManNext(g: Inspector, order: seq<string>, k: nat, tools: seq<string>)
    requires 0 < k < |order| && k <= |tools| && order[0] == g.frontMan && ToolsOf(g, g.frontMan) == tools
    requires order[1..] == tools && Distinct(order) && !IsMissing(g, order[k])
    ensures BreadthAt(g, order, k)
  {
    var before := order[..k];
    assert before[0] == g.frontMan && order[k] == order[1..][k - 1];
    DistinctAt(order, k);
    forall t | t in tools[..k - 1]
      ensures t in Elements(before)
    {
      var m :| 0 <= m < k - 1 && tools[m] == t;
      assert order[1..][m] == t && before[m + 1] == t;
    }
    FirstUnreportedAt(g, tools, k - 1, Elements(before));
  }

  lemma FourTree(g: Inspector, a: string, b: string, c: string, order: seq<string>)
    requires g.frontMan != a && g.frontMan != c && g.frontMan != b && a != c && a != b && c != b
    requires ToolsOf(g, g.frontMan) == [a, b] && ToolsOf(g, a) == [c] && ToolsOf(g, b) == [] && ToolsOf(g, c) == []
    requires IsWhole(g, order) && order == [g.frontMan, a, c, b]
    ensures IsTree(g)
  {
    CompleteOrder(g, order);
    forall u | Reachable(g, u)
      ensures g.frontMan !in ToolsOf(g, u)
      ensures (a in ToolsOf(g, u) || b in ToolsOf(g, u)) ==> u == g.frontMan
      ensures c in ToolsOf(g, u) ==> u == a
      ensures forall t :: t in ToolsOf(g, u) ==> t == a || t == b || t == c
    {
      FourTools(g, a, b, c, u);
    }
  }

  lemma FourTools(g: Inspector, a: string, b: string, c: string, u: string)
    requires g.frontMan != a && g.frontMan != c && g.frontMan != b && a != c && a != b && c != b
    requires ToolsOf(g, g.frontMan) == [a, b] && ToolsOf(g, a) == [c] && ToolsOf(g, b) == [] && ToolsOf(g, c) == []
    requires u in [g.frontMan, a, c, b]
    ensures g.frontMan !in ToolsOf(g, u)
    ensures (a in ToolsOf(g, u) || b in ToolsOf(g, u)) ==> u == g.frontMan
    ensures c in ToolsOf(g, u) ==> u == a
    ensures forall t :: t in ToolsOf(g, u) ==> t == a || t == b || t == c
  {
    assert u == g.frontMan || u == a || u == c || u == b;
  }

  lemma FourApart(f: string, a: string, c: string, b: string)
    requires Distinct([f, a, c, b])
    ensures f != a && f != c && f != b && a != c && a != b && c != b
  {
    var four := [f, a, c, b];
    DistinctMeans(four);
    assert four[0] != four[1] && four[0] != four[2] && four[0] != four[3];
    assert four[1] != four[2] && four[1] != four[3] && four[2] != four[3];
  }

  lemma NotSlim(g: Inspector, a: string, c: string)
    requires !IsMissing(g, g.frontMan) && |ToolsOf(g, g.frontMan)| >= 2 && ToolsOf(g, g.frontMan)[0] == a
    requires !IsMissing(g, a) && !IsMissing(g, c) && c in ToolsOf(g, a) && !IsMissing(g, ToolsOf(g, g.frontMan)[1])
    ensures !Slim(g)
  {
    assert IsPath(g, [g.frontMan]);
    assert Reachable(g, g.frontMan);
    assert !NoPresentTools(g, a);
  }

  // The depth-first order, where b is the i-th tool of the front man and only a and c come before.
  lemma FourInOrder(g: Inspector, a: string, b: string, c: string, i: nat, order: seq<string>)
    requires g.frontMan != a && g.frontMan != c && g.frontMan != b && a != c && a != b && c != b
    requires !IsMissing(g, a) && !IsMissing(g, b) && !IsMissing(g, c) && IsWhole(g, order)
    requires var tools := ToolsOf(g, g.frontMan);
      i < |tools| && tools[0] == a && tools[i] == b && forall t :: t in tools ==> t in {a, b, c}
    requires forall t :: t in ToolsOf(g, g.frontMan)[..i] ==> t in {a, c}
    requires ToolsOf(g, a) == [c] && ToolsOf(g, b) == [] && ToolsOf(g, c) == []
    ensures order == [g.frontMan, a, c, b]
  {
    var dfs := [g.frontMan, a, c, b];
    FirstOf(g, a);
    Down(g, a, c);
    BackToFront(g, a, b, c, i);
    FourFollow(g, a, b, c);
    assert forall n :: n in dfs ==> n == g.frontMan || n == a || n == c || n == b;
    NothingLeft(g, dfs);
    RuleIsDeterministic(g, order, dfs);
  }

  lemma FourFollow(g: Inspector, a: string, b: string, c: string)
    requires NextOrigin(g, [g.frontMan], Elements([g.frontMan])) == Some(a)
    requires NextOrigin(g, [g.frontMan, a], Elements([g.frontMan, a])) == Some(c)
    requires NextOrigin(g, [g.frontMan, a, c], Elements([g.frontMan, a, c])) == Some(b)
    ensures FollowsRule(g, [g.frontMan, a, c, b])
  {
    var dfs := [g.frontMan, a, c, b];
    assert dfs[..1] == [g.frontMan] && dfs[..2] == [g.frontMan, a] && dfs[..3] == [g.frontMan, a, c];
    assert RuleAt(g, dfs, 1) && RuleAt(g, dfs, 2) && RuleAt(g, dfs, 3);
  }

  lemma FirstOf(g: Inspector, a: string)
    requires ToolsOf(g, g.frontMan) != [] && ToolsOf(g, g.frontMan)[0] == a && a != g.frontMan && !IsMissing(g, a)
    ensures NextOrigin(g, [g.frontMan], Elements([g.frontMan])) == Some(a)
  {
    var f := g.frontMan;
    assert Elements([f]) == {f} && [f] == [] + [f];
    FirstUnreportedAt(g, ToolsOf(g, f), 0, {f});
    OneMore(g, [], f, {f});
  }

  lemma Down(g: Inspector, a: string, c: string)
    requires ToolsOf(g, a) == [c] && c !in {g.frontMan, a} && !IsMissing(g, c)
    ensures NextOrigin(g, [g.frontMan, a], Elements([g.frontMan, a])) == Some(c)
  {
    var f := g.frontMan;
    assert Elements([f, a]) == {f, a} && [f, a] == [f] + [a];
    FirstUnreportedAt(g, [c], 0, {f, a});
    OneMore(g, [f], a, {f, a});
  }

  lemma BackToFront(g: Inspector, a: string, b: string, c: string, i: nat)
    requires i < |ToolsOf(g, g.frontMan)| && ToolsOf(g, g.frontMan)[i] == b
    requires forall t :: t in ToolsOf(g, g.frontMan)[..i] ==> t in {a, c}
    requires ToolsOf(g, a) == [c] && ToolsOf(g, c) == []
    requires b !in {g.frontMan, a, c} && !IsMissing(g, b)
    ensures NextOrigin(g, [g.frontMan, a, c], Elements([g.frontMan, a, c])) == Some(b)
  {
    var f := g.frontMan;
    var reported := {f, a, c};
    assert Elements([f, a, c]) == reported && [f, a, c] == [f] + [a] + [c];
    FirstUnreportedAt(g, ToolsOf(g, f), i, reported);
    FirstUnreportedIs(g, [c], reported);
    OneMore(g, [f] + [a], c, reported);
    OneMore(g, [f], a, reported);
    OneMore(g, [], f, reported);
    assert [f] == [] + [f];
  }

  lemma NothingLeft(g: Inspector, order: seq<string>)
    requires forall n, t :: n in order && t in ToolsOf(g, n) ==> t in order
    ensures NextOrigin(g, order, Elements(order)).None?
  {
    NextIs(g, order, Elements(order));
  }

  lemma OneMore(g: Inspector, front: seq<string>, last: string, reported: set<string>)
    ensures NextOrigin(g, front + [last], reported) ==
      if FirstUnreported(g, ToolsOf(g, last), reported).Some? then FirstUnreported(g, ToolsOf(g, last), reported)
      else NextOrigin(g, front, reported)
  {
    assert (front + [last])[..|front|] == front;
  }
}
