/** Routing changed paths to the proof commands that must run for them. */
module ProofPlan {
  import opened Wrappers
  import opened Sorting
  import opened Text

  datatype Route = Route(prefix: string, matchKind: string, specificity: nat)
  datatype TestRoute = TestRoute(route: Route, command: string)
  datatype Lane = Lane(name: string, command: string)

  /** The repository's maps: who owns a path, which command proves it, and the named lanes. */
  datatype Catalog = Catalog(ownerRoute: string -> Option<Route>, owner: string -> Option<string>,
                             testRoute: string -> Option<TestRoute>, lanes: seq<Lane>, laneNames: seq<string>)

  datatype Reason = OwnerMissing(prefix: string) | Backed(prefix: string) | NotALane(prefix: string, command: string)
                  | OwnedButUnrouted | Unmapped

  datatype RouteDecision = RouteDecision(
    changedPath: string, ownerRoute: Option<string>, testRoute: Option<string>, lane: Option<string>,
    command: Option<string>, matchKind: string, specificity: nat, pass: bool, reason: Reason, residualRisk: seq<string>)

  datatype PlannedRun = PlannedRun(lane: string, command: string, owner: Option<string>, changedPaths: seq<string>,
                                   residualRisk: seq<string>)

  datatype Risk = NoOwnerRoute(path: string) | NoTestRoute(path: string) | UnnamedLane(command: string, path: string)
  datatype Approval = ApproveCommands | ApproveCoverage | ReviewCoverage

  datatype Plan = Plan(changedPaths: seq<string>, ownerPrefixes: seq<string>, testPrefixes: seq<string>,
                       requiredLanes: seq<string>, optionalLanes: seq<string>, skippedLanes: set<string>,
                       commands: seq<string>, riskNotes: seq<Risk>, approvals: set<Approval>,
                       decisions: seq<RouteDecision>, runs: seq<PlannedRun>)

  datatype Error = NoChangedPaths

  // ----- lanes by command -----

  function FirstLane(lanes: seq<Lane>, command: string): Option<string> {
    if lanes == [] then None
    else if lanes[0].command == command then Some(lanes[0].name)
    else FirstLane(lanes[1..], command)
  }

  ghost predicate IndexesLanes(m: map<string, string>, lanes: seq<Lane>) {
    forall command :: Lookup(m, command) == FirstLane(lanes, command)
  }

  /** Of several lanes with one command, the first names it. */
  method LaneNamesByCommand(lanes: seq<Lane>) returns (m: map<string, string>)
    ensures IndexesLanes(m, lanes)
  {
    m := map[];
    for i := 0 to |lanes|
      invariant IndexesLanes(m, lanes[..i])
    {
      ghost var before := m;
      if lanes[i].command !in m {
        m := m[lanes[i].command := lanes[i].name];
      }
      assert lanes[..i + 1] == lanes[..i] + [lanes[i]];
      OneMoreLane(before, m, lanes[..i], lanes[i]);
    }
    assert lanes[..|lanes|] == lanes;
  }

  lemma OneMoreLane(before: map<string, string>, after: map<string, string>, lanes: seq<Lane>, lane: Lane)
    requires IndexesLanes(before, lanes)
    requires after == if lane.command in before then before else before[lane.command := lane.name]
    ensures IndexesLanes(after, lanes + [lane])
  {
    forall command ensures Lookup(after, command) == FirstLane(lanes + [lane], command) {
      FirstLaneAppend(lanes, lane, command);
      assert Lookup(before, command) == FirstLane(lanes, command);
    }
  }

  lemma {:induction false} FirstLaneAppend(lanes: seq<Lane>, lane: Lane, command: string)
    ensures FirstLane(lanes + [lane], command)
         == (if FirstLane(lanes, command).Some? then FirstLane(lanes, command)
             else if lane.command == command then Some(lane.name) else None)
  {
    if lanes == [] {
      assert lanes + [lane] == [lane];
    } else {
      assert (lanes + [lane])[1..] == lanes[1..] + [lane];
      FirstLaneAppend(lanes[1..], lane, command);
    }
  }

  // ----- one path -----

  predicate Named(catalog: Catalog, command: string) {
    FirstLane(catalog.lanes, command).Some?
  }

  function LaneLabel(catalog: Catalog, test: TestRoute): string {
    match FirstLane(catalog.lanes, test.command)
    case Some(name) => name
    case None => "test-map:" + test.route.prefix
  }

  function RiskNote(path: string): string {
    "route derived from `" + path + "`"
  }

  function PrefixOf(route: Option<Route>): Option<string> {
    if route.Some? then Some(route.value.prefix) else None
  }

  /** A path is covered when it has an owner and a test command that a named lane runs. */
  predicate Covered(catalog: Catalog, path: string) {
    && catalog.ownerRoute(path).Some? && catalog.testRoute(path).Some?
    && Named(catalog, catalog.testRoute(path).value.command)
  }

  /** What the decision about a path says about its routes. */
  ghost predicate Describes(d: RouteDecision, catalog: Catalog, path: string) {
    && d.changedPath == path && (d.pass <==> Covered(catalog, path))
    && d.ownerRoute == PrefixOf(catalog.ownerRoute(path)) && d.residualRisk == [RiskNote(path)]
    && match catalog.testRoute(path)
       case Some(test) =>
         && d.testRoute == Some(test.route.prefix) && d.command == Some(test.command)
         && d.lane == Some(LaneLabel(catalog, test))
         && d.matchKind == test.route.matchKind && d.specificity == test.route.specificity
         && d.reason == (if catalog.ownerRoute(path).None? then OwnerMissing(test.route.prefix)
                         else if Named(catalog, test.command) then Backed(test.route.prefix)
                         else NotALane(test.route.prefix, test.command))
       case None =>
         && d.testRoute == None && d.command == None && d.lane == None
         && d.reason == (if catalog.ownerRoute(path).Some? then OwnedButUnrouted else Unmapped)
         && d.matchKind == (if catalog.ownerRoute(path).Some? then catalog.ownerRoute(path).value.matchKind else "none")
         && d.specificity == if catalog.ownerRoute(path).Some? then catalog.ownerRoute(path).value.specificity else 0
  }

  function OwnerRisk(catalog: Catalog, path: string): seq<Risk> {
    if catalog.ownerRoute(path).None? then [NoOwnerRoute(path)] else []
  }

  function TestRisk(catalog: Catalog, path: string): seq<Risk> {
    match catalog.testRoute(path)
    case Some(test) => if Named(catalog, test.command) then [] else [UnnamedLane(test.command, path)]
    case None => [NoTestRoute(path)]
  }

  /** The risks of the paths, in order. */
  function Risks(catalog: Catalog, paths: seq<string>): seq<Risk> {
    if paths == [] then []
    else
      var n := |paths| - 1;
      Risks(catalog, paths[..n]) + OwnerRisk(catalog, paths[n]) + TestRisk(catalog, paths[n])
  }

  function ApprovalFor(risk: Risk): Approval {
    match risk
    case NoOwnerRoute(_) => ReviewCoverage
    case NoTestRoute(_) => ApproveCoverage
    case UnnamedLane(_, _) => ApproveCommands
  }

  ghost function Approvals(risks: seq<Risk>): set<Approval> {
    set i | 0 <= i < |risks| :: ApprovalFor(risks[i])
  }

  lemma ApprovalsAppend(risks: seq<Risk>, more: seq<Risk>)
    ensures Approvals(risks + more) == Approvals(risks) + Approvals(more)
  {
    var all := risks + more;
    forall a ensures a in Approvals(all) <==> a in Approvals(risks) || a in Approvals(more) {
      if a in Approvals(risks) {
        var i :| 0 <= i < |risks| && ApprovalFor(risks[i]) == a;
        assert all[i] == risks[i];
      }
      if a in Approvals(more) {
        var i :| 0 <= i < |more| && ApprovalFor(more[i]) == a;
        assert all[|risks| + i] == more[i];
      }
      if a in Approvals(all) {
        var i :| 0 <= i < |all| && ApprovalFor(all[i]) == a;
        assert i < |risks| ==> risks[i] == all[i];
        assert i >= |risks| ==> more[i - |risks|] == all[i];
      }
    }
  }

  lemma {:induction false} NoRiskIffCovered(catalog: Catalog, paths: seq<string>)
    ensures Risks(catalog, paths) == [] <==> forall i | 0 <= i < |paths| :: Covered(catalog, paths[i])
  {
    if paths != [] {
      var n := |paths| - 1;
      NoRiskIffCovered(catalog, paths[..n]);
      assert forall i | 0 <= i < n :: paths[..n][i] == paths[i];
    }
  }

  // ----- the runs -----

  predicate RoutedTo(catalog: Catalog, path: string, command: string) {
    catalog.testRoute(path).Some? && catalog.testRoute(path).value.command == command
  }

  /** The paths a command proves, in order. */
  function PathsOf(catalog: Catalog, command: string, paths: seq<string>): seq<string> {
    if paths == [] then []
    else
      var n := |paths| - 1;
      PathsOf(catalog, command, paths[..n]) + if RoutedTo(catalog, paths[n], command) then [paths[n]] else []
  }

  function NotesOf(paths: seq<string>): seq<string> {
    if paths == [] then [] else NotesOf(paths[..|paths| - 1]) + [RiskNote(paths[|paths| - 1])]
  }

  /** The owner of the earliest owned path. */
  function FirstOwner(catalog: Catalog, paths: seq<string>): Option<string> {
    if paths == [] then None
    else
      var earlier := FirstOwner(catalog, paths[..|paths| - 1]);
      if earlier.Some? then earlier else catalog.owner(paths[|paths| - 1])
  }

  /** A command's run gathers the paths routed to it and takes its lane from the first of them. */
  ghost predicate Gathers(run: PlannedRun, catalog: Catalog, command: string, paths: seq<string>) {
    && run.command == command && run.changedPaths == PathsOf(catalog, command, paths) && run.changedPaths != []
    && RoutedTo(catalog, run.changedPaths[0], command)
    && run.lane == LaneLabel(catalog, catalog.testRoute(run.changedPaths[0]).value)
    && run.owner == FirstOwner(catalog, run.changedPaths)
    && run.residualRisk == NotesOf(run.changedPaths)
  }

  ghost predicate GathersAll(runs: map<string, PlannedRun>, catalog: Catalog, paths: seq<string>) {
    && (forall command | command in runs :: Gathers(runs[command], catalog, command, paths))
    && (forall command | command !in runs :: PathsOf(catalog, command, paths) == [])
  }

  predicate RunLe(a: PlannedRun, b: PlannedRun) {
    if a.lane == b.lane then StringLe(a.command, b.command) else StringLe(a.lane, b.lane)
  }

  lemma RunLeIsPreorder()
    ensures TotalPreorder(RunLe)
  {
    StringLeIsOrder();
  }

  // ----- building the plan -----

  /** The lane prefixes and labels met on the way, each once, in order. */
  function OwnerPrefixes(catalog: Catalog, paths: seq<string>): seq<string> {
    if paths == [] then []
    else
      var n := |paths| - 1;
      var route := catalog.ownerRoute(paths[n]);
      OwnerPrefixes(catalog, paths[..n]) + if route.Some? then [route.value.prefix] else []
  }

  function TestPrefixes(catalog: Catalog, paths: seq<string>): seq<string> {
    if paths == [] then []
    else
      var n := |paths| - 1;
      var test := catalog.testRoute(paths[n]);
      TestPrefixes(catalog, paths[..n]) + if test.Some? then [test.value.route.prefix] else []
  }

  function Labels(catalog: Catalog, paths: seq<string>): seq<string> {
    if paths == [] then []
    else
      var n := |paths| - 1;
      var test := catalog.testRoute(paths[n]);
      Labels(catalog, paths[..n]) + if test.Some? then [LaneLabel(catalog, test.value)] else []
  }

  function PushUnique<T(==)>(xs: seq<T>, x: T): seq<T> {
    if x in xs then xs else xs + [x]
  }

  lemma DistinctPush<T>(xs: seq<T>, x: T)
    ensures Distinct(xs + [x]) == PushUnique(Distinct(xs), x)
  {
  }

  /** What the routing loop has gathered from the paths so far. */
  datatype Routing = Routing(owners: seq<string>, tests: seq<string>, required: seq<string>, risks: seq<Risk>,
                             approvals: set<Approval>, full: bool, decisions: seq<RouteDecision>,
                             runs: map<string, PlannedRun>)

  ghost predicate Routes(r: Routing, catalog: Catalog, paths: seq<string>) {
    && r.owners == Distinct(OwnerPrefixes(catalog, paths))
    && r.tests == Distinct(TestPrefixes(catalog, paths))
    && r.required == Distinct(Labels(catalog, paths))
    && r.risks == Risks(catalog, paths) && r.approvals == Approvals(r.risks) && (r.full <==> r.risks != [])
    && DecidesAll(r.decisions, catalog, paths)
    && GathersAll(r.runs, catalog, paths)
  }

  ghost predicate DecidesAll(decisions: seq<RouteDecision>, catalog: Catalog, paths: seq<string>) {
    |decisions| == |paths| && forall i | 0 <= i < |paths| :: Describes(decisions[i], catalog, paths[i])
  }

  method RoutePaths(catalog: Catalog, paths: seq<string>) returns (r: Routing)
    requires NoDup(paths)
    ensures Routes(r, catalog, paths)
  {
    var lanes := LaneNamesByCommand(catalog.lanes);
    r := Routing([], [], [], [], {}, false, [], map[]);
    ghost var before := paths[..0];
    for i := 0 to |paths|
      invariant before == paths[..i] && Routes(r, catalog, before)
    {
      ghost var upTo := paths[..i + 1];
      PrefixStep(paths, i, before, upTo);
      r := RouteNext(catalog, lanes, paths[i], r, before, upTo);
      before := upTo;
    }
    assert paths[..|paths|] == paths;
  }

  lemma PrefixStep(paths: seq<string>, i: nat, before: seq<string>, upTo: seq<string>)
    requires NoDup(paths) && i < |paths| && before == paths[..i] && upTo == paths[..i + 1]
    ensures upTo == before + [paths[i]] && paths[i] !in before
  {
  }

  /** One turn of the loop. */
  method RouteNext(catalog: Catalog, lanes: map<string, string>, path: string, r: Routing, ghost before: seq<string>,
                   ghost upTo: seq<string>)
    returns (next: Routing)
    requires IndexesLanes(lanes, catalog.lanes) && Routes(r, catalog, before)
    requires path !in before && upTo == before + [path]
    ensures Routes(next, catalog, upTo)
  {
    next := RoutePath(catalog, lanes, path, r);
    StepKeepsRoutes(r, next, catalog, before, path, upTo);
  }

  /** What one turn of the loop adds. */
  ghost predicate Step(r: Routing, next: Routing, catalog: Catalog, path: string) {
    var owner, test := catalog.ownerRoute(path), catalog.testRoute(path);
    && next.owners == (if owner.Some? then PushUnique(r.owners, owner.value.prefix) else r.owners)
    && next.tests == (if test.Some? then PushUnique(r.tests, test.value.route.prefix) else r.tests)
    && next.required == (if test.Some? then PushUnique(r.required, LaneLabel(catalog, test.value)) else r.required)
    && StepRisks(r, next, OwnerRisk(catalog, path) + TestRisk(catalog, path))
    && |next.decisions| == |r.decisions| + 1 && next.decisions[..|r.decisions|] == r.decisions
    && Describes(next.decisions[|r.decisions|], catalog, path)
    && next.runs == StepRuns(r.runs, catalog, path)
  }

  ghost predicate StepRisks(r: Routing, next: Routing, more: seq<Risk>) {
    && next.risks == r.risks + more && next.approvals == r.approvals + Approvals(more)
    && (next.full <==> r.full || more != [])
  }

  function StepRuns(runs: map<string, PlannedRun>, catalog: Catalog, path: string): map<string, PlannedRun> {
    match catalog.testRoute(path)
    case None => runs
    case Some(test) => runs[test.command := Joined(Lookup(runs, test.command), catalog, path, test)]
  }

  /** A run after a path joins it, or the run the path starts. */
  function Joined(run: Option<PlannedRun>, catalog: Catalog, path: string, test: TestRoute): PlannedRun {
    match run
    case None => PlannedRun(LaneLabel(catalog, test), test.command, catalog.owner(path), [path], [RiskNote(path)])
    case Some(run) =>
      PlannedRun(run.lane, run.command, if run.owner.None? then catalog.owner(path) else run.owner,
                 PushUnique(run.changedPaths, path), PushUnique(run.residualRisk, RiskNote(path)))
  }

  method RoutePath(catalog: Catalog, lanes: map<string, string>, path: string, r: Routing) returns (next: Routing)
    requires IndexesLanes(lanes, catalog.lanes)
    ensures Step(r, next, catalog, path)
  {
    var owned := RouteOwner(catalog, path, r);
    var decision := Decide(catalog, lanes, path);
    var tested := RouteTest(catalog, lanes, path, owned);
    next := tested.(decisions := tested.decisions + [decision]);
    TwoRisks(r, owned, tested, OwnerRisk(catalog, path), TestRisk(catalog, path));
  }

  lemma TwoRisks(r: Routing, owned: Routing, tested: Routing, first: seq<Risk>, second: seq<Risk>)
    requires StepRisks(r, owned, first) && StepRisks(owned, tested, second)
    ensures StepRisks(r, tested, first + second)
  {
    ApprovalsAppend(first, second);
  }

  /** The part of the turn that looks at the test route. */
  method RouteTest(catalog: Catalog, lanes: map<string, string>, path: string, r: Routing) returns (next: Routing)
    requires IndexesLanes(lanes, catalog.lanes)
    ensures var test := catalog.testRoute(path);
            && StepRisks(r, next, TestRisk(catalog, path))
            && next.tests == (if test.Some? then PushUnique(r.tests, test.value.route.prefix) else r.tests)
            && next.required
               == (if test.Some? then PushUnique(r.required, LaneLabel(catalog, test.value)) else r.required)
            && next.runs == StepRuns(r.runs, catalog, path)
            && next.owners == r.owners && next.decisions == r.decisions
  {
    var test := catalog.testRoute(path);
    if test.None? {
      next := Note(r, NoTestRoute(path));
      return;
    }
    var command, prefix := test.value.command, test.value.route.prefix;
    assert Lookup(lanes, command) == FirstLane(catalog.lanes, command);
    var laneLabel := if command in lanes then lanes[command] else "test-map:" + prefix;
    next := r.(tests := PushUnique(r.tests, prefix), required := PushUnique(r.required, laneLabel));
    if command !in lanes {
      next := Note(next, UnnamedLane(command, path));
    } else {
      assert r.risks + [] == r.risks;
    }
    var runs := JoinRun(catalog, r.runs, path, test.value, laneLabel);
    next := next.(runs := runs);
  }

  method RouteOwner(catalog: Catalog, path: string, r: Routing) returns (next: Routing)
    ensures var owner := catalog.ownerRoute(path);
            && StepRisks(r, next, OwnerRisk(catalog, path))
            && next.owners == (if owner.Some? then PushUnique(r.owners, owner.value.prefix) else r.owners)
            && next == r.(owners := next.owners, risks := next.risks, approvals := next.approvals, full := next.full)
  {
    var owner := catalog.ownerRoute(path);
    if owner.Some? {
      next := r.(owners := PushUnique(r.owners, owner.value.prefix));
      assert r.risks + [] == r.risks;
    } else {
      next := Note(r, NoOwnerRoute(path));
    }
  }

  /** Records a risk, the approval it calls for, and that the full lane is skipped. */
  method Note(r: Routing, risk: Risk) returns (next: Routing)
    ensures StepRisks(r, next, [risk])
    ensures next == r.(risks := r.risks + [risk], approvals := next.approvals, full := true)
  {
    assert [risk][0] == risk;
    next := r.(risks := r.risks + [risk], approvals := r.approvals + {ApprovalFor(risk)}, full := true);
  }

  /** Adds a path to its command's run, starting the run if it is the first. */
  method JoinRun(catalog: Catalog, runs: map<string, PlannedRun>, path: string, test: TestRoute, laneLabel: string)
    returns (after: map<string, PlannedRun>)
    requires laneLabel == LaneLabel(catalog, test)
    ensures after == runs[test.command := Joined(Lookup(runs, test.command), catalog, path, test)]
  {
    var command, owner, note := test.command, catalog.owner(path), RiskNote(path);
    var run := if command in runs then runs[command] else PlannedRun(laneLabel, command, owner, [path], [note]);
    run := run.(changedPaths := PushUnique(run.changedPaths, path));
    run := run.(residualRisk := PushUnique(run.residualRisk, note));
    if run.owner.None? {
      run := run.(owner := owner);
    }
    after := runs[command := run];
  }

  // ----- the loop keeps the routing right -----

  lemma StepKeepsRoutes(r: Routing, next: Routing, catalog: Catalog, before: seq<string>, path: string,
                        upTo: seq<string>)
    requires Routes(r, catalog, before) && Step(r, next, catalog, path)
    requires path !in before && upTo == before + [path]
    ensures Routes(next, catalog, upTo)
  {
    OwnersStep(catalog, before, path, upTo);
    TestsStep(catalog, before, path, upTo);
    LabelsStep(catalog, before, path, upTo);
    RisksStep(r, next, catalog, before, path, upTo);
    DecisionsStep(r.decisions, next.decisions, catalog, before, path, upTo);
    RunsStep(r.runs, catalog, before, path, upTo);
  }

  lemma OwnersStep(catalog: Catalog, before: seq<string>, path: string, upTo: seq<string>)
    requires upTo == before + [path]
    ensures Distinct(OwnerPrefixes(catalog, upTo))
         == if catalog.ownerRoute(path).Some?
            then PushUnique(Distinct(OwnerPrefixes(catalog, before)), catalog.ownerRoute(path).value.prefix)
            else Distinct(OwnerPrefixes(catalog, before))
  {
    assert upTo[..|before|] == before;
    var earlier := OwnerPrefixes(catalog, before);
    if catalog.ownerRoute(path).Some? {
      DistinctPush(earlier, catalog.ownerRoute(path).value.prefix);
    } else {
      assert earlier + [] == earlier;
    }
  }

  lemma TestsStep(catalog: Catalog, before: seq<string>, path: string, upTo: seq<string>)
    requires upTo == before + [path]
    ensures Distinct(TestPrefixes(catalog, upTo))
         == if catalog.testRoute(path).Some?
            then PushUnique(Distinct(TestPrefixes(catalog, before)), catalog.testRoute(path).value.route.prefix)
            else Distinct(TestPrefixes(catalog, before))
  {
    assert upTo[..|before|] == before;
    var earlier := TestPrefixes(catalog, before);
    if catalog.testRoute(path).Some? {
      DistinctPush(earlier, catalog.testRoute(path).value.route.prefix);
    } else {
      assert earlier + [] == earlier;
    }
  }

  lemma LabelsStep(catalog: Catalog, before: seq<string>, path: string, upTo: seq<string>)
    requires upTo == before + [path]
    ensures Distinct(Labels(catalog, upTo))
         == if catalog.testRoute(path).Some?
            then PushUnique(Distinct(Labels(catalog, before)), LaneLabel(catalog, catalog.testRoute(path).value))
            else Distinct(Labels(catalog, before))
  {
    assert upTo[..|before|] == before;
    var earlier := Labels(catalog, before);
    if catalog.testRoute(path).Some? {
      DistinctPush(earlier, LaneLabel(catalog, catalog.testRoute(path).value));
    } else {
      assert earlier + [] == earlier;
    }
  }

  lemma RisksStep(r: Routing, next: Routing, catalog: Catalog, before: seq<string>, path: string, upTo: seq<string>)
    requires upTo == before + [path] && StepRisks(r, next, OwnerRisk(catalog, path) + TestRisk(catalog, path))
    requires r.risks == Risks(catalog, before) && r.approvals == Approvals(r.risks) && (r.full <==> r.risks != [])
    ensures next.risks == Risks(catalog, upTo) && next.approvals == Approvals(next.risks)
    ensures next.full <==> next.risks != []
  {
    assert upTo[..|before|] == before;
    ApprovalsAppend(r.risks, OwnerRisk(catalog, path) + TestRisk(catalog, path));
  }

  lemma DecisionsStep(decisions: seq<RouteDecision>, next: seq<RouteDecision>, catalog: Catalog, before: seq<string>,
                      path: string, upTo: seq<string>)
    requires DecidesAll(decisions, catalog, before) && upTo == before + [path]
    requires |next| == |decisions| + 1 && next[..|decisions|] == decisions
    requires Describes(next[|decisions|], catalog, path)
    ensures DecidesAll(next, catalog, upTo)
  {
  }

  lemma RunsStep(runs: map<string, PlannedRun>, catalog: Catalog, before: seq<string>, path: string, upTo: seq<string>)
    requires GathersAll(runs, catalog, before) && path !in before && upTo == before + [path]
    ensures GathersAll(StepRuns(runs, catalog, path), catalog, upTo)
  {
    var after := StepRuns(runs, catalog, path);
    forall command
      ensures command in after ==> Gathers(after[command], catalog, command, upTo)
      ensures command !in after ==> PathsOf(catalog, command, upTo) == []
    {
      OneMorePath(catalog, command, before, path, upTo);
      if RoutedTo(catalog, path, command) {
        if command in runs {
          RunGrows(runs[command], catalog, command, before, path, upTo);
        } else {
          RunStarts(catalog, command, before, path, upTo);
        }
      }
    }
  }

  lemma RunStarts(catalog: Catalog, command: string, before: seq<string>, path: string, upTo: seq<string>)
    requires upTo == before + [path] && PathsOf(catalog, command, before) == [] && RoutedTo(catalog, path, command)
    ensures Gathers(Joined(None, catalog, path, catalog.testRoute(path).value), catalog, command, upTo)
  {
  }

  lemma RunGrows(run: PlannedRun, catalog: Catalog, command: string, before: seq<string>, path: string,
                 upTo: seq<string>)
    requires Gathers(run, catalog, command, before) && path !in before && upTo == before + [path]
    requires RoutedTo(catalog, path, command)
    ensures Gathers(Joined(Some(run), catalog, path, catalog.testRoute(path).value), catalog, command, upTo)
  {
    OneMorePath(catalog, command, before, path, upTo);
    PathsOfElements(catalog, command, before);
    NotesOfElements(run.changedPaths, path);
    OneMoreNote(catalog, run.changedPaths, path);
  }

  lemma OneMorePath(catalog: Catalog, command: string, before: seq<string>, path: string, upTo: seq<string>)
    requires upTo == before + [path]
    ensures PathsOf(catalog, command, upTo)
         == PathsOf(catalog, command, before) + if RoutedTo(catalog, path, command) then [path] else []
  {
  }

  lemma OneMoreNote(catalog: Catalog, paths: seq<string>, path: string)
    ensures NotesOf(paths + [path]) == NotesOf(paths) + [RiskNote(path)]
    ensures FirstOwner(catalog, paths + [path])
         == if FirstOwner(catalog, paths).Some? then FirstOwner(catalog, paths) else catalog.owner(path)
  {
  }

  method Decide(catalog: Catalog, lanes: map<string, string>, path: string) returns (d: RouteDecision)
    requires IndexesLanes(lanes, catalog.lanes)
    ensures Describes(d, catalog, path)
  {
    var owner, test := catalog.ownerRoute(path), catalog.testRoute(path);
    if test.Some? {
      var command, route := test.value.command, test.value.route;
      assert Lookup(lanes, command) == FirstLane(catalog.lanes, command);
      var laneLabel := if command in lanes then lanes[command] else "test-map:" + route.prefix;
      var reason := if owner.None? then OwnerMissing(route.prefix)
                    else if command in lanes then Backed(route.prefix) else NotALane(route.prefix, command);
      d := RouteDecision(path, PrefixOf(owner), Some(route.prefix), Some(laneLabel), Some(command), route.matchKind,
                         route.specificity, owner.Some? && command in lanes, reason, [RiskNote(path)]);
    } else {
      d := RouteDecision(path, PrefixOf(owner), None, None, None,
                         if owner.Some? then owner.value.matchKind else "none",
                         if owner.Some? then owner.value.specificity else 0, false,
                         if owner.Some? then OwnedButUnrouted else Unmapped, [RiskNote(path)]);
    }
  }

  lemma {:induction false} PathsOfElements(catalog: Catalog, command: string, paths: seq<string>)
    ensures forall p :: p in PathsOf(catalog, command, paths) <==> p in paths && RoutedTo(catalog, p, command)
  {
    if paths != [] {
      var n := |paths| - 1;
      PathsOfElements(catalog, command, paths[..n]);
      assert paths == paths[..n] + [paths[n]];
    }
  }

  lemma {:induction false} NotesOfElements(paths: seq<string>, path: string)
    ensures RiskNote(path) in NotesOf(paths) <==> path in paths
  {
    if paths != [] {
      var n := |paths| - 1;
      NotesOfElements(paths[..n], path);
      RiskNoteInjective(paths[n], path);
      assert paths == paths[..n] + [paths[n]];
    }
  }

  lemma RiskNoteInjective(a: string, b: string)
    ensures RiskNote(a) == RiskNote(b) <==> a == b
  {
    var start := "route derived from `";
    if RiskNote(a) == RiskNote(b) {
      assert a == RiskNote(a)[|start|..][..|a|] && b == RiskNote(b)[|start|..][..|b|];
    }
  }

  // ----- the finished plan -----

  ghost predicate DistinctCommands(runs: seq<PlannedRun>) {
    forall i, j | 0 <= i < j < |runs| :: runs[i].command != runs[j].command
  }

  ghost predicate Lists(runs: seq<PlannedRun>, m: map<string, PlannedRun>) {
    && NoDup(runs)
    && (forall i | 0 <= i < |runs| :: runs[i].command in m && m[runs[i].command] == runs[i])
    && (forall command | command in m :: m[command] in runs)
  }

  ghost predicate KeyedByCommand(m: map<string, PlannedRun>) {
    forall command | command in m :: m[command].command == command
  }

  lemma ListedCommandsDiffer(runs: seq<PlannedRun>, m: map<string, PlannedRun>)
    requires Lists(runs, m)
    ensures DistinctCommands(runs)
  {
  }

  method CollectRuns(m: map<string, PlannedRun>) returns (runs: seq<PlannedRun>)
    requires KeyedByCommand(m)
    ensures Lists(runs, m) && Sorted(runs, RunLe)
  {
    var unsorted := ListRuns(m);
    runs := Sort(unsorted, RunLe);
    RunLeIsPreorder();
    SortSorted(unsorted, RunLe);
    SortKeepsListed(unsorted, m, RunLe);
  }

  /** The values of the map, each once. */
  method ListRuns(m: map<string, PlannedRun>) returns (runs: seq<PlannedRun>)
    requires KeyedByCommand(m)
    ensures Lists(runs, m)
  {
    runs := [];
    var rest := m.Keys;
    while rest != {}
      invariant rest <= m.Keys && NoDup(runs)
      invariant forall i | 0 <= i < |runs| ::
                  runs[i].command in m && runs[i].command !in rest && m[runs[i].command] == runs[i]
      invariant forall command | command in m :: command in rest || m[command] in runs
      decreases |rest|
    {
      var command :| command in rest;
      runs := runs + [m[command]];
      rest := rest - {command};
    }
  }

  lemma SortKeepsListed(unsorted: seq<PlannedRun>, m: map<string, PlannedRun>, le: (PlannedRun, PlannedRun) -> bool)
    requires Lists(unsorted, m)
    ensures Lists(Sort(unsorted, le), m)
  {
    var runs := Sort(unsorted, le);
    SortElements(unsorted, le);
    SortKeepsNoDup(unsorted, le);
    assert forall i | 0 <= i < |runs| :: runs[i] in unsorted;
  }

  function Commands(runs: seq<PlannedRun>): seq<string> {
    seq(|runs|, i requires 0 <= i < |runs| => runs[i].command)
  }

  method ListCommands(runs: seq<PlannedRun>) returns (commands: seq<string>)
    requires DistinctCommands(runs)
    ensures commands == Commands(runs)
  {
    commands := [];
    for i := 0 to |runs|
      invariant commands == Commands(runs[..i])
    {
      forall j | 0 <= j < i ensures commands[j] != runs[i].command {
      }
      commands := PushUnique(commands, runs[i].command);
    }
    assert runs[..|runs|] == runs;
  }

  ghost function UnusedLanes(lanes: seq<Lane>, required: seq<string>): set<string> {
    set i | 0 <= i < |lanes| && lanes[i].name !in required :: lanes[i].name
  }

  method SkipUnusedLanes(lanes: seq<Lane>, required: seq<string>, full: bool) returns (skipped: set<string>)
    ensures skipped == UnusedLanes(lanes, required) + if full then {"full"} else {}
  {
    var used := set lane | lane in required && exists i :: 0 <= i < |lanes| && lanes[i].name == lane;
    skipped := if full then {"full"} else {};
    ghost var start := skipped;
    for i := 0 to |lanes|
      invariant forall name :: name in skipped <==> || name in start
                                                    || exists j :: && 0 <= j < i && lanes[j].name !in required
                                                                   && lanes[j].name == name
    {
      if lanes[i].name !in used {
        skipped := skipped + {lanes[i].name};
      }
    }
  }

  /** The plan for a list of distinct paths. */
  ghost predicate Plans(plan: Plan, catalog: Catalog, paths: seq<string>) {
    && plan.changedPaths == paths
    && plan.ownerPrefixes == Distinct(OwnerPrefixes(catalog, paths))
    && plan.testPrefixes == Distinct(TestPrefixes(catalog, paths))
    && plan.requiredLanes == Distinct(Labels(catalog, paths))
    && plan.optionalLanes == Without(catalog.laneNames, plan.requiredLanes)
    && plan.skippedLanes
       == UnusedLanes(catalog.lanes, plan.requiredLanes) + (if plan.riskNotes != [] then {"full"} else {})
    && plan.riskNotes == Risks(catalog, paths) && plan.approvals == Approvals(plan.riskNotes)
    && DecidesAll(plan.decisions, catalog, paths)
    && PlansRuns(plan.runs, catalog, paths) && plan.commands == Commands(plan.runs)
  }

  /** One run for each command some path is routed to, in order of lane and command. */
  ghost predicate PlansRuns(runs: seq<PlannedRun>, catalog: Catalog, paths: seq<string>) {
    && Sorted(runs, RunLe) && DistinctCommands(runs)
    && (forall i | 0 <= i < |runs| :: Gathers(runs[i], catalog, runs[i].command, paths))
    && (forall p | p in paths && catalog.testRoute(p).Some? ::
          exists i :: 0 <= i < |runs| && RoutedTo(catalog, p, runs[i].command))
  }

  /** `changed` are the normalised changed paths; the plan sees each once, in order. */
  method BuildProofPlan(catalog: Catalog, changed: seq<string>) returns (r: Result<Plan, Error>)
    ensures r.Err? <==> changed == []
    ensures r.Ok? ==> ListsSet(r.value.changedPaths, Elements(changed))
    ensures r.Ok? ==> Plans(r.value, catalog, r.value.changedPaths)
  {
    var paths := SortDedup(changed, StringLe);
    StringLeIsOrder();
    SortDedupSpec(changed, StringLe);
    assert changed != [] ==> changed[0] in changed;
    if paths == [] {
      return Err(NoChangedPaths);
    }
    assert paths[0] in changed;
    var routing := RoutePaths(catalog, paths);
    var runs := CollectRuns(routing.runs);
    ListedCommandsDiffer(runs, routing.runs);
    ListedRunsArePlanned(runs, routing.runs, catalog, paths);
    var commands := ListCommands(runs);
    var optional := Without(catalog.laneNames, routing.required);
    var skipped := SkipUnusedLanes(catalog.lanes, routing.required, routing.full);
    r := Ok(Plan(paths, routing.owners, routing.tests, routing.required, optional, skipped, commands, routing.risks,
                 routing.approvals, routing.decisions, runs));
  }

  lemma ListedRunsArePlanned(runs: seq<PlannedRun>, m: map<string, PlannedRun>, catalog: Catalog, paths: seq<string>)
    requires Lists(runs, m) && Sorted(runs, RunLe) && GathersAll(m, catalog, paths)
    ensures PlansRuns(runs, catalog, paths)
  {
    ListedCommandsDiffer(runs, m);
    forall p | p in paths && catalog.testRoute(p).Some?
      ensures exists i :: 0 <= i < |runs| && RoutedTo(catalog, p, runs[i].command)
    {
      var command := catalog.testRoute(p).value.command;
      PathsOfElements(catalog, command, paths);
      assert p in PathsOf(catalog, command, paths);
      assert m[command] in runs;
      var i :| 0 <= i < |runs| && runs[i] == m[command];
      assert RoutedTo(catalog, p, runs[i].command);
    }
  }

  // ----- what a plan guarantees -----

  /** All the paths the runs carry, run by run. */
  function Carried(runs: seq<PlannedRun>): seq<string> {
    if runs == [] then [] else Carried(runs[..|runs| - 1]) + runs[|runs| - 1].changedPaths
  }

  lemma {:induction false} PathsOfNoDup(catalog: Catalog, command: string, paths: seq<string>)
    requires NoDup(paths)
    ensures NoDup(PathsOf(catalog, command, paths))
  {
    if paths != [] {
      var n := |paths| - 1;
      PathsOfNoDup(catalog, command, paths[..n]);
      PathsOfElements(catalog, command, paths[..n]);
      assert paths[n] !in paths[..n];
    }
  }

  lemma {:induction false} CarriedElements(runs: seq<PlannedRun>, p: string)
    ensures p in Carried(runs) <==> exists i :: 0 <= i < |runs| && p in runs[i].changedPaths
  {
    if runs != [] {
      var n := |runs| - 1;
      CarriedElements(runs[..n], p);
      if i :| 0 <= i < |runs| && p in runs[i].changedPaths {
        assert i < n ==> runs[..n][i] == runs[i];
      }
    }
  }

  lemma NoDupAppend<T>(xs: seq<T>, ys: seq<T>)
    requires NoDup(xs) && NoDup(ys) && forall x | x in ys :: x !in xs
    ensures NoDup(xs + ys)
  {
    forall i, j | 0 <= i < j < |xs + ys| ensures (xs + ys)[i] != (xs + ys)[j] {
      if i < |xs| <= j {
        assert (xs + ys)[j] in ys;
      }
    }
  }

  lemma {:induction false} CarriedOnce(runs: seq<PlannedRun>, catalog: Catalog, paths: seq<string>)
    requires NoDup(paths) && DistinctCommands(runs)
    requires forall i | 0 <= i < |runs| :: Gathers(runs[i], catalog, runs[i].command, paths)
    ensures NoDup(Carried(runs))
  {
    if runs != [] {
      var n := |runs| - 1;
      CarriedOnce(runs[..n], catalog, paths);
      PathsOfNoDup(catalog, runs[n].command, paths);
      forall p | p in runs[n].changedPaths ensures p !in Carried(runs[..n]) {
        CarriedElements(runs[..n], p);
        PathsOfElements(catalog, runs[n].command, paths);
        forall i | 0 <= i < n ensures p !in runs[..n][i].changedPaths {
          PathsOfElements(catalog, runs[i].command, paths);
          assert runs[i].command != runs[n].command;
        }
      }
      NoDupAppend(Carried(runs[..n]), runs[n].changedPaths);
    }
  }

  /** Conservation: the runs together carry every path that has a test route, each exactly once, and no others. */
  lemma RunsCarryRoutedPathsOnce(plan: Plan, catalog: Catalog)
    requires Plans(plan, catalog, plan.changedPaths) && NoDup(plan.changedPaths)
    ensures NoDup(Carried(plan.runs))
    ensures forall p :: p in Carried(plan.runs) <==> p in plan.changedPaths && catalog.testRoute(p).Some?
  {
    CarriedOnce(plan.runs, catalog, plan.changedPaths);
    forall p ensures p in Carried(plan.runs) <==> p in plan.changedPaths && catalog.testRoute(p).Some? {
      CarriedElements(plan.runs, p);
      forall i | 0 <= i < |plan.runs| {
        PathsOfElements(catalog, plan.runs[i].command, plan.changedPaths);
      }
    }
  }

  /** A routed path is carried by its command's run and by no other. */
  lemma RoutedPathHasOneRun(plan: Plan, catalog: Catalog, p: string, i: nat)
    requires Plans(plan, catalog, plan.changedPaths) && i < |plan.runs| && p in plan.changedPaths
    ensures p in plan.runs[i].changedPaths <==> RoutedTo(catalog, p, plan.runs[i].command)
  {
    PathsOfElements(catalog, plan.runs[i].command, plan.changedPaths);
  }

  /** A plan without risk notes, one whose decisions all pass, and one needing no approval are the same thing. */
  lemma CleanPlanNeedsNoApproval(plan: Plan, catalog: Catalog)
    requires Plans(plan, catalog, plan.changedPaths)
    ensures plan.riskNotes == [] <==> forall i | 0 <= i < |plan.decisions| :: plan.decisions[i].pass
    ensures plan.riskNotes == [] <==> plan.approvals == {}
  {
    NoRiskIffCovered(catalog, plan.changedPaths);
    assert forall i | 0 <= i < |plan.decisions| ::
        plan.decisions[i].pass <==> Covered(catalog, plan.changedPaths[i]);
    if plan.riskNotes != [] {
      assert ApprovalFor(plan.riskNotes[0]) in plan.approvals;
    }
  }
}
