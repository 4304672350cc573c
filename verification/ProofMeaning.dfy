/** What executions and verdicts say, in terms of the plan's own fields and of what the commands did. */
module ProofMeaning {
  import opened Wrappers
  import opened EvidencePaths
  import opened ProofAgreement
  import opened ProofCheck
  import opened ProofEvidence
  import opened ProofVerdict
  import opened Sorting
  import opened Text

  // ----- exit codes -----

  /** A receipt records the code the command ended with, and -1 if a signal ended it. */
  lemma RecordedCodeIsTheCommands(w: World, job: Job, start: FS, t: Trace, i: nat)
    requires Traces(t, w, job, start) && i < |t.effects|
    ensures t.effects[i] == w.shell(i, job.runs[i].command, t.states[i])
    ensures t.effects[i].exit.Some? ==> t.receipts[i].exitCode == t.effects[i].exit.value
    ensures t.effects[i].exit.None? ==> t.receipts[i].exitCode == -1
  {
    assert Turn(w, job, t, i);
  }

  /** An execution succeeds exactly if there is something to run and every command ended by itself with code 0. */
  lemma SucceedsIffCommandsDo(e: Execution, w: World, plan: Plan, job: Job, start: FS, indexPath: string,
                              continueOnError: bool, t: Trace)
    requires Executed(e, w, plan, job, start, indexPath, continueOnError, t)
    ensures e.result.Ok?
       <==> && job.runs != [] && |t.effects| == |job.runs|
            && forall i | 0 <= i < |t.effects| :: t.effects[i].exit == Some(0)
  {
    CodesTellSuccess(w, job, start, t);
  }

  lemma CodesTellSuccess(w: World, job: Job, start: FS, t: Trace)
    requires Traces(t, w, job, start)
    ensures forall i | 0 <= i < |t.effects| :: t.receipts[i].exitCode == 0 <==> t.effects[i].exit == Some(0)
  {
    forall i | 0 <= i < |t.effects| ensures t.receipts[i].exitCode == 0 <==> t.effects[i].exit == Some(0) {
      RecordedCodeIsTheCommands(w, job, start, t, i);
    }
  }

  /** Only the last command of an execution that stops on errors can have failed, and only a failure stops it. */
  lemma StopsAtTheFirstFailure(e: Execution, w: World, plan: Plan, job: Job, start: FS,
                               indexPath: string, continueOnError: bool, t: Trace)
    requires Executed(e, w, plan, job, start, indexPath, continueOnError, t)
    ensures !continueOnError ==> forall i | 0 <= i < |t.effects| - 1 :: t.effects[i].exit == Some(0)
    ensures |t.effects| < |job.runs| ==>
              !continueOnError && t.effects != [] && t.effects[|t.effects| - 1].exit != Some(0)
  {
    CodesTellSuccess(w, job, start, t);
  }

  /** The error names the command that stopped the execution, with the code it ended with. */
  lemma FailureNamesTheCommand(e: Execution, w: World, plan: Plan, job: Job, start: FS,
                               indexPath: string, continueOnError: bool, t: Trace)
    requires Executed(e, w, plan, job, start, indexPath, continueOnError, t) && e.result.Err?
    ensures e.result.error == NoRunnableCommands <==> job.runs == []
    ensures e.result.error == SomeFailed ==> continueOnError
    ensures e.result.error.CommandFailed? ==>
              var n := |t.effects|;
              && n > 0 && t.effects[n - 1].exit != Some(0) && !continueOnError
              && e.result.error.command == job.runs[n - 1].command && e.result.error.lane == job.runs[n - 1].lane
              && e.result.error.exit == match t.effects[n - 1].exit case Some(code) => code case None => -1
  {
    CodesTellSuccess(w, job, start, t);
    if t.effects != [] {
      RecordedCodeIsTheCommands(w, job, start, t, |t.effects| - 1);
    }
  }

  /** The index lists as failed exactly the receipts of the commands that did not end with code 0, in order. */
  lemma FailedAreListed(e: Execution, w: World, plan: Plan, job: Job, start: FS, indexPath: string,
                        continueOnError: bool, t: Trace)
    requires Executed(e, w, plan, job, start, indexPath, continueOnError, t)
    ensures Picks(e.index.failedReceipts, |t.effects|, (i: nat) =>
                    if i < |t.effects| && i < |job.files| && t.effects[i].exit != Some(0)
                    then Some(job.files[i].receiptName) else None)
  {
    var pick: nat -> Option<string> := (i: nat) =>
      if i < |t.effects| && i < |job.files| && t.effects[i].exit != Some(0)
      then Some(job.files[i].receiptName) else None;
    CodesTellSuccess(w, job, start, t);
    FailedNamesArePicked(job, t, |t.effects|, pick);
  }

  lemma {:induction false} FailedNamesArePicked(job: Job, t: Trace, n: nat, pick: nat -> Option<string>)
    requires n <= |t.receipts| <= |job.files|
    requires forall i: nat | i < n ::
               pick(i) == if t.receipts[i].exitCode != 0 then Some(job.files[i].receiptName) else None
    ensures Picks(FailedNames(job, t, n), n, pick)
  {
    if n == 0 {
      PicksNothing(pick);
    } else {
      FailedNamesArePicked(job, t, n - 1, pick);
      PicksOneMore(FailedNames(job, t, n - 1), n - 1, pick, FailedNames(job, t, n));
    }
  }

  // ----- the runs of a plan -----

  ghost function Size(plan: Plan): nat {
    if plan.runs != [] then |plan.runs| else |plan.commands|
  }

  /** The plan's `i`th planned run, or if it plans none the run made up for its `i`th command. */
  ghost function RunFor(plan: Plan, i: nat): PlannedRun
    requires i < Size(plan)
  {
    if plan.runs != [] then plan.runs[i]
    else ProofPlan.PlannedRun("command-" + Decimal(i), plan.commands[i], None, plan.changedPaths, plan.riskNotes)
  }

  lemma RunsAreThePlans(plan: Plan)
    ensures |RunsOf(plan)| == Size(plan)
    ensures forall i | 0 <= i < Size(plan) :: RunsOf(plan)[i] == RunFor(plan, i)
  {
  }

  /** A receipt of the run: what was run, on what, and under which plan. */
  ghost predicate ReceiptOf(receipt: Receipt, run: PlannedRun, planSha: string) {
    && receipt.lane == run.lane && receipt.command == run.command && receipt.owner == run.owner
    && receipt.changedPaths == run.changedPaths && receipt.residualRisk == run.residualRisk
    && receipt.planDigest == Some(planSha)
  }

  /**
   * An execution runs the plan's commands in order and writes a receipt for each; a successful one runs all of them
   * and there is at least one.
   */
  lemma ExecutesThePlan(e: Execution, w: World, plan: Plan, outDir: string, planSha: string, start: FS,
                        indexPath: string, continueOnError: bool, t: Trace)
    requires Executed(e, w, plan, JobOf(w, plan, outDir, planSha), start, indexPath, continueOnError, t)
    ensures |t.effects| <= Size(plan) && (e.result.Ok? ==> 0 < |t.effects| == Size(plan))
    ensures forall i | 0 <= i < |t.effects| ::
              && t.effects[i] == w.shell(i, RunFor(plan, i).command, t.states[i])
              && ReceiptOf(t.receipts[i], RunFor(plan, i), planSha)
  {
    RunsAreThePlans(plan);
    var job := JobOf(w, plan, outDir, planSha);
    forall i | 0 <= i < |t.effects|
      ensures t.effects[i] == w.shell(i, RunFor(plan, i).command, t.states[i])
      ensures ReceiptOf(t.receipts[i], RunFor(plan, i), planSha)
    {
      assert Turn(w, job, t, i);
      assert job.runs[i] == RunFor(plan, i);
    }
  }

  /** A listed name leads to a receipt of this lane and command. */
  ghost predicate Lists(index: Index, view: View, lane: string, command: string) {
    exists j, receipt ::
      && 0 <= j < |index.receipts| && view(index.receipts[j]) == Some(Document(receipt))
      && receipt.lane == lane && receipt.command == command
  }

  /** ...that ended with code 0 under this plan. */
  ghost predicate ListsGood(index: Index, view: View, lane: string, command: string, planSha: string) {
    exists j, receipt ::
      && 0 <= j < |index.receipts| && view(index.receipts[j]) == Some(Document(receipt))
      && receipt.lane == lane && receipt.command == command
      && receipt.exitCode == 0 && receipt.planDigest == Some(planSha)
  }

  /** Sound evidence names the commands of the whole plan in order and has a receipt of success for each. */
  lemma SoundEvidenceCoversThePlan(w: World, fs: FS, plan: Plan, planSha: string, index: Index)
    requires Sound(w, fs, plan, planSha, index)
    ensures 0 < |index.commands| == Size(plan)
    ensures forall i | 0 <= i < Size(plan) ::
              && index.commands[i] == RunFor(plan, i).command
              && ListsGood(index, ViewOf(w, fs), RunFor(plan, i).lane, RunFor(plan, i).command, planSha)
  {
    RunsAreThePlans(plan);
    forall i | 0 <= i < Size(plan)
      ensures index.commands[i] == RunFor(plan, i).command
      ensures ListsGood(index, ViewOf(w, fs), RunFor(plan, i).lane, RunFor(plan, i).command, planSha)
    {
      assert RunsOf(plan)[i] == RunFor(plan, i);
      GoodReceiptListed(w, ViewOf(w, fs), plan, planSha, index, RunFor(plan, i), fs);
    }
  }

  lemma GoodReceiptListed(w: World, view: View, plan: Plan, planSha: string, index: Index,
                          run: PlannedRun, fs: FS)
    requires Sound(w, fs, plan, planSha, index) && view == ViewOf(w, fs) && run in RunsOf(plan)
    ensures ListsGood(index, view, run.lane, run.command, planSha)
  {
    var i :| 0 <= i < |RunsOf(plan)| && RunsOf(plan)[i] == run;
    assert KeyOf(run) in KeySet(RunsOf(plan));
    assert Observes(view, index.receipts, KeyOf(run));
    var j :| 0 <= j < |index.receipts| && ListedKey(view, index.receipts[j]) == Some(KeyOf(run));
    assert ReceiptHolds(w.sha, view, index.receiptDigests, KeySet(RunsOf(plan)), planSha, index.receipts[j]);
    assert view(index.receipts[j]) == Some(Document(view(index.receipts[j]).value.receipt));
  }

  /** A planned run, or a command of a plan without runs, that has no receipt makes the verdict blocked. */
  lemma UnlistedRunBlocks(v: Verification, w: World, fs: FS, plan: Plan, planSha: string, index: Index,
                          i: nat, lane: string, command: string)
    requires Verifies(v, w, fs, plan, planSha, index)
    requires i < Size(plan) && RunFor(plan, i).lane == lane && RunFor(plan, i).command == command
    requires !Lists(index, ViewOf(w, fs), lane, command)
    ensures v.verdict == Blocked
  {
    RunsAreThePlans(plan);
    assert KeyOf(RunsOf(plan)[i]) == RunKey(lane, command);
    if Observes(ViewOf(w, fs), index.receipts, RunKey(lane, command)) {
      ObservedIsListed(index, ViewOf(w, fs), lane, command);
    }
    MissingRunIsWrong(w, fs, plan, planSha, index, MissingRun(lane, command), ViewOf(w, fs));
    UncoveredRunBlocks(v.issues, lane, command);
  }

  lemma ObservedIsListed(index: Index, view: View, lane: string, command: string)
    requires Observes(view, index.receipts, RunKey(lane, command))
    ensures Lists(index, view, lane, command)
  {
    var j :| 0 <= j < |index.receipts| && ListedKey(view, index.receipts[j]) == Some(RunKey(lane, command));
    assert view(index.receipts[j]) == Some(Document(view(index.receipts[j]).value.receipt));
  }

  lemma MissingRunIsWrong(w: World, fs: FS, plan: Plan, planSha: string, index: Index, issue: Issue,
                          view: View)
    requires issue.MissingRun? && view == ViewOf(w, fs) && RunKey(issue.lane, issue.command) in KeySet(RunsOf(plan))
    requires !Observes(view, index.receipts, RunKey(issue.lane, issue.command))
    ensures Wrong(issue, w, fs, plan, planSha, index)
  {
  }

  /** What the check finds under a name; it fails where that is a file that is no receipt. */
  lemma CheckReads(w: World, fs: FS, name: string)
    ensures var place := Denotes(w.cwd, Parse(w.repo), name);
            && ViewOf(w, fs)(name) == (if place in fs then Some(fs[place]) else None)
            && (Unparseable(ViewOf(w, fs), name) <==> place in fs && fs[place].Other?)
  {
  }

  // ----- recorded and recomputed digests -----

  /** The first entry for a path counts. */
  lemma {:induction false} FirstDigestIs(digests: seq<Digest>, path: string)
    ensures match FirstDigest(digests, path)
            case None => forall i | 0 <= i < |digests| :: digests[i].path != path
            case Some(sha) =>
              exists i :: && 0 <= i < |digests| && digests[i] == Digest(path, sha)
                          && forall j | 0 <= j < i :: digests[j].path != path
  {
    if digests != [] && digests[0].path != path {
      var rest := digests[1..];
      FirstDigestIs(rest, path);
      if FirstDigest(rest, path).Some? {
        var i :| && 0 <= i < |rest| && rest[i] == Digest(path, FirstDigest(rest, path).value)
                 && forall j | 0 <= j < i :: rest[j].path != path;
        assert digests[i + 1] == rest[i];
        forall j | 0 <= j < i + 1 ensures digests[j].path != path {
          assert j > 0 ==> digests[j] == rest[j - 1];
        }
      } else {
        forall i | 0 <= i < |digests| ensures digests[i].path != path {
          assert i > 0 ==> digests[i] == rest[i - 1];
        }
      }
    } else if digests != [] {
      assert digests[0] == Digest(path, digests[0].sha);
    }
  }

  /** The receipt under the `i`th listed name, if there is one. */
  ghost function ReceiptAt(view: View, names: seq<string>, i: nat): Option<Receipt> {
    if i >= |names| then None
    else match view(names[i]) case Some(Document(receipt)) => Some(receipt) case _ => None
  }

  ghost function CommandDigestAt(sha: Content -> string, view: View, names: seq<string>, i: nat): Option<Digest> {
    match ReceiptAt(view, names, i)
    case None => None
    case Some(receipt) => Some(Digest(receipt.lane + "::" + receipt.command, sha(Other(receipt.command))))
  }

  ghost function LogDigestAt(sha: Content -> string, view: View, names: seq<string>, i: nat): Option<Digest> {
    match ReceiptAt(view, names, i)
    case None => None
    case Some(receipt) =>
      match receipt.logPath
      case None => None
      case Some(path) => match view(path) case None => None case Some(log) => Some(Digest(path, sha(log)))
  }

  /** Artifacts come in pairs: a receipt, then its log. */
  ghost function ArtifactDigestAt(sha: Content -> string, view: View, names: seq<string>, i: nat): Option<Digest> {
    if i % 2 == 1 then LogDigestAt(sha, view, names, i / 2)
    else if ReceiptAt(view, names, i / 2).Some? then Some(Digest(names[i / 2], sha(view(names[i / 2]).value)))
    else None
  }

  /** What is recomputed: digests of the commands, logs and files of the listed receipts that are there, in order. */
  lemma RecomputedDigestsAre(sha: Content -> string, view: View, names: seq<string>)
    ensures var d := DigestsOf(sha, view, names);
            && Picks(d.command, |names|, (i: nat) => CommandDigestAt(sha, view, names, i))
            && Picks(d.log, |names|, (i: nat) => LogDigestAt(sha, view, names, i))
            && Picks(d.artifact, 2 * |names|, (i: nat) => ArtifactDigestAt(sha, view, names, i))
  {
    var commands: nat -> Option<Digest> := (i: nat) => CommandDigestAt(sha, view, names, i);
    var logs: nat -> Option<Digest> := (i: nat) => LogDigestAt(sha, view, names, i);
    var artifacts: nat -> Option<Digest> := (i: nat) => ArtifactDigestAt(sha, view, names, i);
    DigestsOfPrefix(sha, view, names, |names|, commands, logs, artifacts);
    assert names[..|names|] == names;
  }

  lemma {:induction false} DigestsOfPrefix(sha: Content -> string, view: View, names: seq<string>, n: nat,
                                           commands: nat -> Option<Digest>, logs: nat -> Option<Digest>,
                                           artifacts: nat -> Option<Digest>)
    requires n <= |names|
    requires forall i: nat :: commands(i) == CommandDigestAt(sha, view, names, i)
    requires forall i: nat :: logs(i) == LogDigestAt(sha, view, names, i)
    requires forall i: nat :: artifacts(i) == ArtifactDigestAt(sha, view, names, i)
    ensures var d := DigestsOf(sha, view, names[..n]);
            Picks(d.command, n, commands) && Picks(d.log, n, logs) && Picks(d.artifact, 2 * n, artifacts)
  {
    if n == 0 {
      PicksNothing(commands);
      PicksNothing(logs);
      PicksNothing(artifacts);
    } else {
      var m := n - 1;
      DigestsOfPrefix(sha, view, names, m, commands, logs, artifacts);
      assert names[..n][..m] == names[..m] && names[..n][m] == names[m];
      var before := DigestsOf(sha, view, names[..m]);
      var after := AddDigests(before, sha, view, names[m]);
      OneMoreReceiptsDigests(sha, view, names, m, before, after, commands, logs);
      OneMoreArtifacts(sha, view, names, m, before, after, artifacts);
    }
  }

  lemma OneMoreReceiptsDigests(sha: Content -> string, view: View, names: seq<string>, m: nat, before: Digests,
                               after: Digests, commands: nat -> Option<Digest>, logs: nat -> Option<Digest>)
    requires m < |names| && after == AddDigests(before, sha, view, names[m])
    requires commands(m) == CommandDigestAt(sha, view, names, m) && logs(m) == LogDigestAt(sha, view, names, m)
    requires Picks(before.command, m, commands) && Picks(before.log, m, logs)
    ensures Picks(after.command, m + 1, commands) && Picks(after.log, m + 1, logs)
  {
    assert before.log + [] == before.log;
    PicksOneMore(before.command, m, commands, after.command);
    PicksOneMore(before.log, m, logs, after.log);
  }

  lemma OneMoreArtifacts(sha: Content -> string, view: View, names: seq<string>, m: nat, before: Digests,
                         after: Digests, artifacts: nat -> Option<Digest>)
    requires m < |names| && after == AddDigests(before, sha, view, names[m])
    requires artifacts(2 * m) == ArtifactDigestAt(sha, view, names, 2 * m)
    requires artifacts(2 * m + 1) == ArtifactDigestAt(sha, view, names, 2 * m + 1)
    requires Picks(before.artifact, 2 * m, artifacts)
    ensures Picks(after.artifact, 2 * (m + 1), artifacts)
  {
    assert (2 * m) / 2 == m && (2 * m) % 2 == 0 && (2 * m + 1) / 2 == m && (2 * m + 1) % 2 == 1;
    var there := ReceiptAt(view, names, m).Some?;
    var half := before.artifact + if there then [Digest(names[m], sha(view(names[m]).value))] else [];
    assert before.artifact + [] == before.artifact && half + [] == half;
    PicksOneMore(before.artifact, 2 * m, artifacts, half);
    PicksOneMore(half, 2 * m + 1, artifacts, after.artifact);
  }

  /** A verification reports the recomputed digests, and the evidence's own where there was nothing to recompute. */
  lemma ReportedDigestsAre(v: Verification, w: World, fs: FS, plan: Plan, planSha: string, index: Index)
    requires Verifies(v, w, fs, plan, planSha, index)
    ensures var d := DigestsOf(w.sha, ViewOf(w, fs), index.receipts);
            && v.digests.command == (if d.command != [] then d.command else index.commandDigests)
            && v.digests.log == (if d.log != [] then d.log else index.logDigests)
            && v.digests.artifact == (if d.artifact != [] then d.artifact else index.artifactDigests)
    ensures v.planDigest == planSha && v.receiptDigests == index.receiptDigests && |v.manifest| == |w.manifests|
    ensures forall i | 0 <= i < |w.manifests| ::
              var loc := Denotes(w.cwd, Parse(w.repo), w.manifests[i].path);
              v.manifest[i] == if loc in fs then Some(w.sha(fs[loc])) else None
  {
  }

  /** The digests an execution records for each run: of its command, of what its log and its receipt were written as. */
  lemma RecordedDigestsAre(e: Execution, w: World, plan: Plan, job: Job, start: FS, indexPath: string,
                           continueOnError: bool, t: Trace, i: nat)
    requires Executed(e, w, plan, job, start, indexPath, continueOnError, t) && i < |t.effects|
    ensures i < |e.index.commandDigests| && i < |e.index.logDigests| && i < |e.index.receiptDigests|
    ensures e.index.commandDigests[i]
         == Digest(job.runs[i].lane + "::" + job.runs[i].command, w.sha(Other(job.runs[i].command)))
    ensures e.index.logDigests[i] == Digest(job.files[i].logName, w.sha(Other(t.effects[i].log)))
    ensures e.index.receiptDigests[i] == Digest(job.files[i].receiptName, w.sha(Document(t.receipts[i])))
    ensures t.receipts[i].logPath == Some(job.files[i].logName)
    ensures t.receipts[i].receiptPath == Some(job.files[i].receiptName)
    ensures t.receipts[i].commandDigest == Some(w.sha(Other(job.runs[i].command)))
    ensures t.receipts[i].logSha == Some(w.sha(Other(t.effects[i].log))) && t.receipts[i].rulesCovered == []
  {
    var l :| Gathered(l, w, job, t) && Holds(e.index, l);
    assert Entry(l, w, job, t, i) && Turn(w, job, t, i);
  }
}
