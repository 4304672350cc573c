/** What a proof plan says, in terms of the catalog's routes and lanes for each changed path. */
module PlanRouting {
  import opened Wrappers
  import opened ProofPlan
  import opened Sorting
  import opened Text

  // ----- lanes -----

  /** Some lane runs the command, and `name` is what the first such lane is called. */
  ghost predicate FirstNamed(lanes: seq<Lane>, command: string, name: string) {
    exists i :: && 0 <= i < |lanes| && lanes[i].command == command && lanes[i].name == name
                && forall j | 0 <= j < i :: lanes[j].command != command
  }

  lemma {:induction false} FirstLaneIff(lanes: seq<Lane>, command: string, name: string)
    ensures FirstLane(lanes, command) == Some(name) <==> FirstNamed(lanes, command, name)
  {
    if lanes != [] {
      var rest := lanes[1..];
      FirstLaneIff(rest, command, name);
      if lanes[0].command != command {
        if i :| && 0 <= i < |rest| && rest[i].command == command && rest[i].name == name
                && forall j | 0 <= j < i :: rest[j].command != command {
          assert lanes[i + 1] == rest[i];
          forall j | 0 <= j < i + 1 ensures lanes[j].command != command {
            assert j > 0 ==> lanes[j] == rest[j - 1];
          }
        }
        if i :| && 0 <= i < |lanes| && lanes[i].command == command && lanes[i].name == name
                && forall j | 0 <= j < i :: lanes[j].command != command {
          assert lanes[i] == rest[i - 1];
          forall j | 0 <= j < i - 1 ensures rest[j].command != command {
            assert rest[j] == lanes[j + 1];
          }
        }
      }
    }
  }

  ghost predicate RunBySomeLane(catalog: Catalog, command: string) {
    exists i :: 0 <= i < |catalog.lanes| && catalog.lanes[i].command == command
  }

  lemma {:induction false} SomeLaneIff(lanes: seq<Lane>, command: string)
    ensures FirstLane(lanes, command).Some? <==> exists i :: 0 <= i < |lanes| && lanes[i].command == command
  {
    if lanes != [] {
      var rest := lanes[1..];
      SomeLaneIff(rest, command);
      if i :| 0 <= i < |lanes| && lanes[i].command == command {
        assert i > 0 ==> rest[i - 1] == lanes[i];
      }
      if i :| 0 <= i < |rest| && rest[i].command == command {
        assert lanes[i + 1] == rest[i];
      }
    }
  }

  /** A test route's lane is the first one that runs its command, and otherwise named after the route. */
  lemma LaneLabelIs(catalog: Catalog, test: TestRoute, name: string)
    ensures FirstNamed(catalog.lanes, test.command, name) ==> LaneLabel(catalog, test) == name
    ensures !RunBySomeLane(catalog, test.command) ==> LaneLabel(catalog, test) == "test-map:" + test.route.prefix
  {
    FirstLaneIff(catalog.lanes, test.command, name);
    SomeLaneIff(catalog.lanes, test.command);
  }

  // ----- risks and approvals -----

  ghost predicate NoOwner(catalog: Catalog, path: string) {
    catalog.ownerRoute(path) == None
  }

  ghost predicate NoTest(catalog: Catalog, path: string) {
    catalog.testRoute(path) == None
  }

  /** The path's test command is run by no lane. */
  ghost predicate NoLane(catalog: Catalog, path: string, command: string) {
    && catalog.testRoute(path).Some? && catalog.testRoute(path).value.command == command
    && !RunBySomeLane(catalog, command)
  }

  /** The risks a path brings: first that it has no owner, then what is wrong with its tests. */
  ghost function RiskAt(catalog: Catalog, paths: seq<string>, i: nat): Option<Risk> {
    var k := i / 2;
    if k >= |paths| then None
    else if i % 2 == 0 then if NoOwner(catalog, paths[k]) then Some(NoOwnerRoute(paths[k])) else None
    else
      match catalog.testRoute(paths[k])
      case None => Some(NoTestRoute(paths[k]))
      case Some(test) =>
        if RunBySomeLane(catalog, test.command) then None else Some(UnnamedLane(test.command, paths[k]))
  }

  /** The risk notes of a plan are those of its paths, in order. */
  lemma RisksAre(catalog: Catalog, paths: seq<string>)
    ensures Picks(Risks(catalog, paths), 2 * |paths|, (i: nat) => RiskAt(catalog, paths, i))
  {
    var pick: nat -> Option<Risk> := (i: nat) => RiskAt(catalog, paths, i);
    RisksOfPrefix(catalog, paths, |paths|, pick);
    assert paths[..|paths|] == paths;
  }

  lemma {:induction false} RisksOfPrefix(catalog: Catalog, paths: seq<string>, n: nat, pick: nat -> Option<Risk>)
    requires n <= |paths| && forall i: nat :: pick(i) == RiskAt(catalog, paths, i)
    ensures Picks(Risks(catalog, paths[..n]), 2 * n, pick)
  {
    if n == 0 {
      PicksNothing(pick);
    } else {
      var m := n - 1;
      RisksOfPrefix(catalog, paths, m, pick);
      var before, path := Risks(catalog, paths[..m]), paths[m];
      assert paths[..n][..m] == paths[..m];
      var owned := before + OwnerRisk(catalog, path);
      RiskPicks(catalog, paths, m);
      PicksOneMore(before, 2 * m, pick, owned);
      PicksOneMore(owned, 2 * m + 1, pick, owned + TestRisk(catalog, path));
      assert Risks(catalog, paths[..n]) == owned + TestRisk(catalog, path);
    }
  }

  lemma RiskPicks(catalog: Catalog, paths: seq<string>, m: nat)
    requires m < |paths|
    ensures OwnerRisk(catalog, paths[m])
         == match RiskAt(catalog, paths, 2 * m) case None => [] case Some(risk) => [risk]
    ensures TestRisk(catalog, paths[m])
         == match RiskAt(catalog, paths, 2 * m + 1) case None => [] case Some(risk) => [risk]
  {
    assert (2 * m) / 2 == m && (2 * m) % 2 == 0 && (2 * m + 1) / 2 == m && (2 * m + 1) % 2 == 1;
    if catalog.testRoute(paths[m]).Some? {
      SomeLaneIff(catalog.lanes, catalog.testRoute(paths[m]).value.command);
    }
  }

  lemma {:induction false} RiskMembers(catalog: Catalog, paths: seq<string>, risk: Risk)
    ensures risk in Risks(catalog, paths)
       <==> match risk
            case NoOwnerRoute(path) => path in paths && NoOwner(catalog, path)
            case NoTestRoute(path) => path in paths && NoTest(catalog, path)
            case UnnamedLane(command, path) => path in paths && NoLane(catalog, path, command)
  {
    if paths != [] {
      var n := |paths| - 1;
      RiskMembers(catalog, paths[..n], risk);
      assert paths == paths[..n] + [paths[n]];
      if catalog.testRoute(paths[n]).Some? {
        SomeLaneIff(catalog.lanes, catalog.testRoute(paths[n]).value.command);
      }
    }
  }

  /** Which approvals a plan asks for: each exactly if some path lacks what the approval is about. */
  lemma ApprovalsAskedFor(plan: Plan, catalog: Catalog)
    requires Plans(plan, catalog, plan.changedPaths)
    ensures ReviewCoverage in plan.approvals <==> exists p :: p in plan.changedPaths && NoOwner(catalog, p)
    ensures ApproveCoverage in plan.approvals <==> exists p :: p in plan.changedPaths && NoTest(catalog, p)
    ensures ApproveCommands in plan.approvals
       <==> exists p, command :: p in plan.changedPaths && NoLane(catalog, p, command)
  {
    var paths, risks := plan.changedPaths, plan.riskNotes;
    forall a | a in Approvals(risks)
      ensures match a
              case ReviewCoverage => exists p :: p in paths && NoOwner(catalog, p)
              case ApproveCoverage => exists p :: p in paths && NoTest(catalog, p)
              case ApproveCommands => exists p, command :: p in paths && NoLane(catalog, p, command)
    {
      ApprovalHasReason(catalog, paths, risks, a);
    }
    forall p | p in paths && NoOwner(catalog, p) ensures ReviewCoverage in Approvals(risks) {
      RiskMembers(catalog, paths, NoOwnerRoute(p));
      RiskAsks(risks, NoOwnerRoute(p));
    }
    forall p | p in paths && NoTest(catalog, p) ensures ApproveCoverage in Approvals(risks) {
      RiskMembers(catalog, paths, NoTestRoute(p));
      RiskAsks(risks, NoTestRoute(p));
    }
    forall p, command | p in paths && NoLane(catalog, p, command) ensures ApproveCommands in Approvals(risks) {
      RiskMembers(catalog, paths, UnnamedLane(command, p));
      RiskAsks(risks, UnnamedLane(command, p));
    }
  }

  lemma ApprovalHasReason(catalog: Catalog, paths: seq<string>, risks: seq<Risk>, a: Approval)
    requires risks == Risks(catalog, paths) && a in Approvals(risks)
    ensures match a
            case ReviewCoverage => exists p :: p in paths && NoOwner(catalog, p)
            case ApproveCoverage => exists p :: p in paths && NoTest(catalog, p)
            case ApproveCommands => exists p, command :: p in paths && NoLane(catalog, p, command)
  {
    var i :| 0 <= i < |risks| && ApprovalFor(risks[i]) == a;
    RiskMembers(catalog, paths, risks[i]);
  }

  lemma RiskAsks(risks: seq<Risk>, risk: Risk)
    requires risk in risks
    ensures ApprovalFor(risk) in Approvals(risks)
  {
    var i :| 0 <= i < |risks| && risks[i] == risk;
  }

  // ----- runs -----

  /** Runs come in code point order of their lanes, and of their commands where lanes are the same. */
  lemma RunsInOrder(plan: Plan, catalog: Catalog, i: nat, j: nat)
    requires Plans(plan, catalog, plan.changedPaths) && i < j < |plan.runs|
    ensures var a, b := plan.runs[i], plan.runs[j];
            StringLe(a.lane, b.lane) && (a.lane == b.lane ==> StringLe(a.command, b.command) && a.command != b.command)
  {
    assert RunLe(plan.runs[i], plan.runs[j]);
    StringLeTotal(plan.runs[i].lane, plan.runs[i].lane);
  }

  ghost function PathAt(catalog: Catalog, command: string, paths: seq<string>, i: nat): Option<string> {
    if i < |paths| && catalog.testRoute(paths[i]).Some? && catalog.testRoute(paths[i]).value.command == command
    then Some(paths[i]) else None
  }

  /** A command's run carries the changed paths whose test route names the command, in order. */
  lemma RunCarries(catalog: Catalog, command: string, paths: seq<string>)
    ensures Picks(PathsOf(catalog, command, paths), |paths|, (i: nat) => PathAt(catalog, command, paths, i))
  {
    var pick: nat -> Option<string> := (i: nat) => PathAt(catalog, command, paths, i);
    PathsOfPrefix(catalog, command, paths, |paths|, pick);
    assert paths[..|paths|] == paths;
  }

  lemma {:induction false} PathsOfPrefix(catalog: Catalog, command: string, paths: seq<string>, n: nat,
                                         pick: nat -> Option<string>)
    requires n <= |paths| && forall i: nat :: pick(i) == PathAt(catalog, command, paths, i)
    ensures Picks(PathsOf(catalog, command, paths[..n]), n, pick)
  {
    if n == 0 {
      PicksNothing(pick);
    } else {
      var m := n - 1;
      PathsOfPrefix(catalog, command, paths, m, pick);
      assert paths[..n][..m] == paths[..m];
      PicksOneMore(PathsOf(catalog, command, paths[..m]), m, pick, PathsOf(catalog, command, paths[..n]));
    }
  }

  /** A run's owner is that of the earliest path that has one, and its notes are about its paths. */
  lemma {:induction false} OwnerAndNotes(catalog: Catalog, paths: seq<string>)
    ensures FirstOwner(catalog, paths).None? <==> forall p | p in paths :: catalog.owner(p).None?
    ensures FirstOwner(catalog, paths).Some? ==>
              exists i :: && 0 <= i < |paths| && catalog.owner(paths[i]) == FirstOwner(catalog, paths)
                          && forall j | 0 <= j < i :: catalog.owner(paths[j]).None?
    ensures |NotesOf(paths)| == |paths| && forall i | 0 <= i < |paths| :: NotesOf(paths)[i] == RiskNote(paths[i])
  {
    if paths != [] {
      var n := |paths| - 1;
      OwnerAndNotes(catalog, paths[..n]);
      assert paths == paths[..n] + [paths[n]];
      if FirstOwner(catalog, paths[..n]).Some? {
        var i :| && 0 <= i < n && catalog.owner(paths[..n][i]) == FirstOwner(catalog, paths[..n])
                 && forall j | 0 <= j < i :: catalog.owner(paths[..n][j]).None?;
        assert paths[..n][i] == paths[i];
        forall j | 0 <= j < i ensures catalog.owner(paths[j]).None? {
          assert paths[..n][j] == paths[j];
        }
      } else {
        forall j | 0 <= j < n ensures catalog.owner(paths[j]).None? {
          assert paths[..n][j] in paths[..n];
        }
      }
    }
  }

  /**
   * What a planned run says: it is for the paths routed to its command, in the lane that runs the command first or else
   * one named after a test route, and has a note for each path.
   */
  lemma RunSays(plan: Plan, catalog: Catalog, i: nat)
    requires Plans(plan, catalog, plan.changedPaths) && i < |plan.runs|
    ensures var run := plan.runs[i];
            && i < |plan.commands| && plan.commands[i] == run.command && run.changedPaths != []
            && Picks(run.changedPaths, |plan.changedPaths|,
                     (k: nat) => PathAt(catalog, run.command, plan.changedPaths, k))
            && (if RunBySomeLane(catalog, run.command) then FirstNamed(catalog.lanes, run.command, run.lane)
                else exists test :: && catalog.testRoute(run.changedPaths[0]) == Some(test)
                                    && run.lane == "test-map:" + test.route.prefix)
            && run.owner == FirstOwner(catalog, run.changedPaths)
            && |run.residualRisk| == |run.changedPaths|
            && forall k | 0 <= k < |run.residualRisk| :: run.residualRisk[k] == RiskNote(run.changedPaths[k])
  {
    var run := plan.runs[i];
    assert Gathers(run, catalog, run.command, plan.changedPaths);
    RunCarries(catalog, run.command, plan.changedPaths);
    OwnerAndNotes(catalog, run.changedPaths);
    var test := catalog.testRoute(run.changedPaths[0]).value;
    SomeLaneIff(catalog.lanes, run.command);
    if RunBySomeLane(catalog, run.command) {
      FirstLaneIff(catalog.lanes, run.command, FirstLane(catalog.lanes, run.command).value);
      LaneLabelIs(catalog, test, FirstLane(catalog.lanes, run.command).value);
    } else {
      LaneLabelIs(catalog, test, "");
    }
  }

  // ----- prefixes and labels -----

  /** The route prefixes and lanes a plan names are those of its paths, each once. */
  lemma NamesOf(catalog: Catalog, paths: seq<string>)
    ensures NoDup(Distinct(OwnerPrefixes(catalog, paths))) && NoDup(Distinct(TestPrefixes(catalog, paths)))
    ensures NoDup(Distinct(Labels(catalog, paths)))
    ensures forall x :: x in Distinct(OwnerPrefixes(catalog, paths))
                   <==> exists p :: p in paths && catalog.ownerRoute(p).Some? && catalog.ownerRoute(p).value.prefix == x
    ensures forall x :: x in Distinct(TestPrefixes(catalog, paths))
                   <==> exists p :: && p in paths && catalog.testRoute(p).Some?
                                    && catalog.testRoute(p).value.route.prefix == x
    ensures forall x :: x in Distinct(Labels(catalog, paths))
                   <==> exists p :: && p in paths && catalog.testRoute(p).Some?
                                    && LaneLabel(catalog, catalog.testRoute(p).value) == x
  {
    DistinctSpec(OwnerPrefixes(catalog, paths));
    DistinctSpec(TestPrefixes(catalog, paths));
    DistinctSpec(Labels(catalog, paths));
    NamesMet(catalog, paths);
  }

  lemma {:induction false} NamesMet(catalog: Catalog, paths: seq<string>)
    ensures forall x :: x in OwnerPrefixes(catalog, paths)
                   <==> exists p :: p in paths && catalog.ownerRoute(p).Some? && catalog.ownerRoute(p).value.prefix == x
    ensures forall x :: x in TestPrefixes(catalog, paths)
                   <==> exists p :: && p in paths && catalog.testRoute(p).Some?
                                    && catalog.testRoute(p).value.route.prefix == x
    ensures forall x :: x in Labels(catalog, paths)
                   <==> exists p :: && p in paths && catalog.testRoute(p).Some?
                                    && LaneLabel(catalog, catalog.testRoute(p).value) == x
  {
    if paths != [] {
      var n := |paths| - 1;
      NamesMet(catalog, paths[..n]);
      assert paths == paths[..n] + [paths[n]];
    }
  }
}
