// The recursive report itself, proved against the depth-first rule of Connectivity.
module ConnectivityReporting {
  import opened PyDicts
  import opened Connectivity

  // The set object that every level of the recursion shares and adds to.
  class NameSet {
    var names: set<string>

    constructor ()
      ensures names == {}
    {
      names := {};
    }
  }

  // Every new name but the first is the one the rule picks next.
  ghost predicate RuleFrom(g: Inspector, before: seq<string>, visited: seq<string>) {
    forall k :: |before| < k < |before + visited| ==> RuleAt(g, before + visited, k)
  }

  lemma RuleIgnoresWhatFollows(g: Inspector, a: seq<string>, b: seq<string>, k: nat)
    requires k < |a|
    ensures RuleAt(g, a + b, k) == RuleAt(g, a, k)
  {
    assert (a + b)[..k] == a[..k];
  }

  // The names a recursive call took up continue the order, when the rule picks its first.
  lemma RuleContinues(g: Inspector, before: seq<string>, visited: seq<string>, more: seq<string>)
    requires RuleFrom(g, before, visited) && RuleFrom(g, before + visited, more)
    requires more != [] && NextOrigin(g, before + visited, Elements(before + visited)) == Some(more[0])
    ensures RuleFrom(g, before, visited + more)
  {
    var sofar, all := before + visited, before + (visited + more);
    assert all == sofar + more;
    forall k | |before| < k < |all| ensures RuleAt(g, all, k) {
      if k < |sofar| {
        RuleIgnoresWhatFollows(g, sofar, more, k);
      } else if k == |sofar| {
        assert all[..k] == sofar && all[k] == more[0];
      }
    }
  }

  // With the descendants so far exhausted and the first i tools dealt with, an unreported
  // tool i that is present is the next origin.
  lemma ToolIsNext(g: Inspector, before: seq<string>, visited: seq<string>, i: nat, reported: set<string>)
    requires visited != [] && i < |ToolsOf(g, visited[0])|
    requires Exhausted(g, visited[1..], reported)
    requires forall t :: t in ToolsOf(g, visited[0])[..i] ==> t in reported || IsMissing(g, t)
    requires var tool := ToolsOf(g, visited[0])[i]; tool !in reported && !IsMissing(g, tool)
    ensures NextOrigin(g, before + visited, reported) == Some(ToolsOf(g, visited[0])[i])
  {
    FirstUnreportedAt(g, ToolsOf(g, visited[0]), i, reported);
    NextIs(g, visited[1..], reported);
    assert [visited[0]] + visited[1..] == visited;
    assert [visited[0]][..0] == [];
    NextOverAppend(g, [visited[0]], visited[1..], reported);
    NextOverAppend(g, before, visited, reported);
  }

  ghost predicate ReportsMatch(g: Inspector, reports: seq<Report>) {
    forall r :: r in reports ==> r.tools == ToolsOf(g, r.origin)
  }

  lemma ListedNext(refs: seq<ToolRef>, i: nat)
    requires i < |refs|
    ensures var sofar := Deduped(NamesIn(refs[..i]));
      Deduped(NamesIn(refs[..i + 1])) ==
      if refs[i].Named? && refs[i].name !in sofar then sofar + [refs[i].name] else sofar
    ensures var sofar := Deduped(NamesIn(refs[..i]));
      refs[i].Named? ==> Elements(sofar + [refs[i].name]) == Elements(sofar) + {refs[i].name}
  {
    assert refs[..i + 1][..i] == refs[..i];
    var names := NamesIn(refs[..i]);
    if refs[i].Named? {
      assert (names + [refs[i].name])[..|names|] == names;
    } else {
      assert names + [] == names;
    }
  }

  lemma ExhaustedGrows(g: Inspector, a: seq<string>, b: seq<string>, small: set<string>, large: set<string>)
    requires Exhausted(g, a, small) && small <= large && Exhausted(g, b, large)
    ensures Exhausted(g, a + b, large)
  {
  }

  lemma ReportsAppend(g: Inspector, a: seq<Report>, b: seq<Report>)
    requires ReportsMatch(g, a) && ReportsMatch(g, b)
    ensures Origins(a + b) == Origins(a) + Origins(b) && ReportsMatch(g, a + b)
  {
  }

  // What a call reported: `visited` in order, each with its tools, with nothing left over.
  ghost predicate Reported(g: Inspector, before: seq<string>, reports: seq<Report>, visited: seq<string>, reported: set<string>) {
    && Origins(reports) == visited && ReportsMatch(g, reports)
    && RuleFrom(g, before, visited)
    && reported == Elements(before + visited)
    && Exhausted(g, visited, reported)
    && NoneHidden(g, visited)
  }

  ghost predicate NoneHidden(g: Inspector, visited: seq<string>) {
    g.displaysNone || forall n :: n in visited ==> !IsHidden(g, n)
  }

  // The same in the middle of a call, when the first i tools of its node are dealt with.
  ghost predicate Underway(g: Inspector, before: seq<string>, i: nat, reports: seq<Report>, visited: seq<string>, reported: set<string>) {
    && visited != [] && i <= |ToolsOf(g, visited[0])|
    && Origins(reports) == visited && ReportsMatch(g, reports)
    && RuleFrom(g, before, visited)
    && reported == Elements(before + visited)
    && Exhausted(g, visited[1..], reported)
    && (forall t :: t in ToolsOf(g, visited[0])[..i] ==> t in reported || IsMissing(g, t))
    && NoneHidden(g, visited)
  }

  lemma StartsUnderway(g: Inspector, before: seq<string>, name: string)
    requires g.displaysNone || !IsHidden(g, name)
    ensures Underway(g, before, 0, [Report(name, ToolsOf(g, name))], [name], Elements(before) + {name})
  {
    assert Origins([Report(name, ToolsOf(g, name))]) == [name];
    ElementsAppend(before, name);
  }

  lemma SkipsTool(g: Inspector, before: seq<string>, i: nat, reports: seq<Report>, visited: seq<string>, reported: set<string>)
    requires Underway(g, before, i, reports, visited, reported) && i < |ToolsOf(g, visited[0])|
    requires var tool := ToolsOf(g, visited[0])[i]; tool in reported || IsMissing(g, tool)
    ensures Underway(g, before, i + 1, reports, visited, reported)
  {
    var tools := ToolsOf(g, visited[0]);
    assert tools[..i + 1] == tools[..i] + [tools[i]];
  }

  lemma TakesTool(g: Inspector, before: seq<string>, i: nat, reports: seq<Report>, visited: seq<string>, reported: set<string>,
                  more: seq<Report>, newVisited: seq<string>, reported': set<string>)
    requires Underway(g, before, i, reports, visited, reported) && i < |ToolsOf(g, visited[0])|
    requires var tool := ToolsOf(g, visited[0])[i];
      tool !in reported && !IsMissing(g, tool) && newVisited != [] && newVisited[0] == tool
    requires Reported(g, before + visited, more, newVisited, reported')
    ensures Underway(g, before, i + 1, reports + more, visited + newVisited, reported')
  {
    var tools := ToolsOf(g, visited[0]);
    ToolIsNext(g, before, visited, i, reported);
    RuleContinues(g, before, visited, newVisited);
    Regroup(before, visited, newVisited);
    Covers(before + visited, newVisited);
    DealtWith(g, tools, i, reported, reported', newVisited);
    ExhaustedAfterFirst(g, visited, newVisited, reported, reported');
    ReportsAppend(g, reports, more);
    NoneHiddenBoth(g, visited, newVisited);
  }

  // A call for a name: nothing for a missing one; otherwise a report that starts with it, or the
  // failure on a hidden node that is taken up last.
  ghost predicate Outcome(g: Inspector, name: string, before: seq<string>, was: set<string>,
                          result: Result<seq<Report>>, visited: seq<string>, reported: set<string>)
  {
    && RuleFrom(g, before, visited)
    && (IsMissing(g, name) ==> result == Ok([]) && visited == [] && reported == was)
    && (!IsMissing(g, name) ==> visited != [] && visited[0] == name)
    && (result.Ok? && !IsMissing(g, name) ==> Reported(g, before, result.value, visited, reported))
    && (result.AttributeError? ==> visited != [] && !g.displaysNone && IsHidden(g, visited[|visited| - 1]))
  }

  lemma AfterCall(g: Inspector, before: seq<string>, i: nat, reports: seq<Report>, visited: seq<string>, was: set<string>,
                  result: Result<seq<Report>>, more: seq<string>, reported: set<string>)
    requires Underway(g, before, i, reports, visited, was) && i < |ToolsOf(g, visited[0])|
    requires var tool := ToolsOf(g, visited[0])[i];
      tool !in was && Outcome(g, tool, before + visited, was, result, more, reported)
    ensures result.Ok? ==> was <= reported
    ensures result.Ok? ==> Underway(g, before, i + 1, reports + result.value, visited + more, reported)
    ensures result.AttributeError? ==> RuleFrom(g, before, visited + more)
  {
    if result.AttributeError? {
      ToolIsNext(g, before, visited, i, was);
      RuleContinues(g, before, visited, more);
    } else if IsMissing(g, ToolsOf(g, visited[0])[i]) {
      SkipsTool(g, before, i, reports, visited, was);
      assert reports + [] == reports && visited + [] == visited;
    } else {
      TakesTool(g, before, i, reports, visited, was, result.value, more, reported);
      Covers(before + visited, more);
    }
  }

  lemma DealtWith(g: Inspector, tools: seq<string>, i: nat, reported: set<string>, reported': set<string>, more: seq<string>)
    requires i < |tools| && more != [] && more[0] == tools[i]
    requires forall t :: t in tools[..i] ==> t in reported || IsMissing(g, t)
    requires reported <= reported' && forall t :: t in more ==> t in reported'
    ensures forall t :: t in tools[..i + 1] ==> t in reported' || IsMissing(g, t)
  {
    assert tools[..i + 1] == tools[..i] + [tools[i]];
    assert more[0] in more;
  }

  lemma ExhaustedAfterFirst(g: Inspector, visited: seq<string>, more: seq<string>, small: set<string>, large: set<string>)
    requires visited != [] && Exhausted(g, visited[1..], small) && small <= large && Exhausted(g, more, large)
    ensures Exhausted(g, (visited + more)[1..], large)
  {
    assert (visited + more)[1..] == visited[1..] + more;
    ExhaustedGrows(g, visited[1..], more, small, large);
  }

  lemma NoneHiddenBoth(g: Inspector, a: seq<string>, b: seq<string>)
    requires NoneHidden(g, a) && NoneHidden(g, b)
    ensures NoneHidden(g, a + b)
  {
  }

  lemma Covers(a: seq<string>, b: seq<string>)
    ensures Elements(a) <= Elements(a + b)
    ensures forall x :: x in b ==> x in Elements(a + b)
  {
  }

  lemma EndsReported(g: Inspector, before: seq<string>, reports: seq<Report>, visited: seq<string>, reported: set<string>)
    requires visited != [] && Underway(g, before, |ToolsOf(g, visited[0])|, reports, visited, reported)
    ensures Reported(g, before, reports, visited, reported)
  {
    var tools := ToolsOf(g, visited[0]);
    assert tools[..|tools|] == tools;
    assert visited == [visited[0]] + visited[1..];
  }

  class ConnectivityReporter {
    const inspector: Inspector

    constructor (inspector: Inspector)
      ensures this.inspector == inspector
    {
      this.inspector := inspector;
    }

    // remove_dictionary_tools followed by the de-duplicating loop of assemble_tool_list.
    method AssembleToolList(spec: Option<AgentSpec>) returns (tools: seq<string>)
      ensures tools == if spec.None? then [] else Deduped(NamesIn(spec.value.tools + spec.value.argsTools))
    {
      tools := [];
      if spec.None? {
        return;
      }
      var combined := spec.value.tools + spec.value.argsTools;
      var toolSet: set<string> := {};
      for i := 0 to |combined|
        invariant tools == Deduped(NamesIn(combined[..i]))
        invariant toolSet == Elements(tools)
      {
        ListedNext(combined, i);
        if combined[i].Named? {
          var name := combined[i].name;
          if name !in toolSet {
            toolSet := toolSet + {name};
            tools := tools + [name];
          }
        }
      }
      assert combined[..|combined|] == combined;
    }

    // `before` is the report so far, across all levels of the recursion; `visited` lists the
    // names this call takes up, in order, up to the one it fails on if it fails.
    method ReportNodeConnectivity(name: string, reported: NameSet, ghost before: seq<string>)
      returns (result: Result<seq<Report>>, ghost visited: seq<string>)
      requires name !in reported.names && Elements(before) == reported.names
      modifies reported
      decreases inspector.specs.Keys - reported.names
      ensures Outcome(inspector, name, before, old(reported.names), result, visited, reported.names)
    {
      var connectivity: seq<Report> := [];
      var spec := None;
      if !inspector.isExternal(name) {
        if name !in inspector.specs {
          return Ok([]), [];
        }
        spec := Some(inspector.specs[name]);
        if !spec.value.allowConnectivity {
          spec := None;
        }
      }
      var tools := AssembleToolList(spec);
      if !inspector.isExternal(name) && spec.None? && !inspector.displaysNone {
        // determine_display_as(None)
        return AttributeError, [name];
      }
      reported.names := reported.names + {name};
      connectivity := connectivity + [Report(name, tools)];
      visited := [name];
      StartsUnderway(inspector, before, name);
      for i := 0 to |tools|
        invariant visited != [] && visited[0] == name
        invariant old(reported.names) + {name} <= reported.names
        invariant Underway(inspector, before, i, connectivity, visited, reported.names)
      {
        var tool := tools[i];
        if tool !in reported.names {
          ghost var was := reported.names;
          var more, newVisited := ReportNodeConnectivity(tool, reported, before + visited);
          AfterCall(inspector, before, i, connectivity, visited, was, more, newVisited, reported.names);
          if more.AttributeError? {
            return AttributeError, visited + newVisited;
          }
          assert connectivity + [] == connectivity;
          if |more.value| > 0 {
            connectivity := connectivity + more.value;
          }
          visited := visited + newVisited;
        } else {
          SkipsTool(inspector, before, i, connectivity, visited, reported.names);
        }
      }
      EndsReported(inspector, before, connectivity, visited, reported.names);
      return Ok(connectivity), visited;
    }

    // The whole report: the front man first, then depth-first preorder; each reachable name
    // exactly once, with its tools.  It fails exactly when a hidden node is reachable and
    // determine_display_as does not accept None.
    method ReportNetworkConnectivity() returns (result: Result<seq<Report>>)
      ensures result.AttributeError? <==>
        !inspector.displaysNone &&
        exists h :: Reachable(inspector, h) &&
          !inspector.isExternal(h) && h in inspector.specs && !inspector.specs[h].allowConnectivity
      ensures result.Ok? ==> Complete(inspector, result.value)
    {
      var reportedAgents := new NameSet();
      ghost var visited;
      result, visited := ReportNodeConnectivity(inspector.frontMan, reportedAgents, []);
      if IsMissing(inspector, inspector.frontMan) {
        NothingReachable(inspector);
      } else if result.Ok? {
        WholeReport(inspector, result.value, visited, reportedAgents.names);
      } else {
        FailedReport(inspector, visited);
      }
    }
  }

  ghost predicate Complete(g: Inspector, reports: seq<Report>) {
    && Distinct(Origins(reports))
    && (forall n :: n in Origins(reports) <==> Reachable(g, n))
    && FollowsRule(g, Origins(reports))
    && ReportsMatch(g, reports)
    && (!IsMissing(g, g.frontMan) ==> reports != [] && reports[0].origin == g.frontMan)
  }

  lemma WholeReport(g: Inspector, reports: seq<Report>, visited: seq<string>, reported: set<string>)
    requires !IsMissing(g, g.frontMan) && visited != [] && visited[0] == g.frontMan
    requires Reported(g, [], reports, visited, reported)
    ensures Complete(g, reports)
    ensures g.displaysNone || forall h :: IsHidden(g, h) ==> !Reachable(g, h)
  {
    assert [] + visited == visited;
    NextIs(g, visited, Elements(visited));
    CompleteOrder(g, visited);
    assert reports[0].origin == Origins(reports)[0];
  }

  lemma FailedReport(g: Inspector, visited: seq<string>)
    requires !IsMissing(g, g.frontMan) && visited != [] && visited[0] == g.frontMan
    requires RuleFrom(g, [], visited)
    ensures Reachable(g, visited[|visited| - 1])
  {
    assert [] + visited == visited;
    RuleReaches(g, visited, |visited| - 1);
  }

  lemma NothingReachable(g: Inspector)
    requires IsMissing(g, g.frontMan)
    ensures forall n :: !Reachable(g, n)
    ensures Origins([]) == []
  {
  }
}
