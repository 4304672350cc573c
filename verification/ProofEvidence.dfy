/** Evidence of proof runs: the files a run leaves, the index of them, and what an index must say to be sound. */
module ProofEvidence {
  import opened Wrappers
  import opened EvidencePaths
  import opened Lexical
  import opened Sorting
  import opened Text
  import ProofPlan

  type PlannedRun = ProofPlan.PlannedRun

  datatype Digest = Digest(path: string, sha: string)

  datatype Receipt = Receipt(
    lane: string, command: string, exitCode: int, changedPaths: seq<string>, owner: Option<string>,
    residualRisk: seq<string>, logPath: Option<string>, receiptPath: Option<string>, planDigest: Option<string>,
    commandDigest: Option<string>, logSha: Option<string>, rulesCovered: seq<string>)

  /** A file holds a receipt document or something else. */
  datatype Content = Document(receipt: Receipt) | Other(text: string)

  type FS = map<Loc, Content>

  /** What running a command did: its exit code unless a signal ended it, its log, and the files afterwards. */
  datatype Effect = Effect(exit: Option<int>, log: string, fs: FS)

  datatype ManifestFile = ManifestFile(name: string, path: string)

  /** The process and its surroundings; hashes and the shell are arbitrary functions. */
  datatype World = World(cwd: Loc, repo: string, sha: Content -> string, hash: string -> seq<Nibble>,
                         manifests: seq<ManifestFile>, shell: (nat, string, FS) -> Effect)

  datatype Plan = Plan(changedPaths: seq<string>, commands: seq<string>, riskNotes: seq<string>, runs: seq<PlannedRun>)

  datatype Index = Index(
    planDigest: string, manifest: seq<Option<string>>, commands: seq<string>, receipts: seq<string>,
    commandDigests: seq<Digest>, logDigests: seq<Digest>, artifactDigests: seq<Digest>, receiptDigests: seq<Digest>,
    logs: seq<string>, coverage: seq<string>, failedReceipts: seq<string>, changedPaths: seq<string>)

  // ----- runs of a plan -----

  function FallbackRuns(plan: Plan): seq<PlannedRun> {
    seq(|plan.commands|, i requires 0 <= i < |plan.commands| =>
      ProofPlan.PlannedRun("command-" + Decimal(i), plan.commands[i], None, plan.changedPaths, plan.riskNotes))
  }

  function RunsOf(plan: Plan): seq<PlannedRun> {
    if plan.runs == [] then FallbackRuns(plan) else plan.runs
  }

  datatype RunKey = RunKey(lane: string, command: string)

  function KeyOf(run: PlannedRun): RunKey {
    RunKey(run.lane, run.command)
  }

  function Keys(runs: seq<PlannedRun>): seq<RunKey> {
    seq(|runs|, i requires 0 <= i < |runs| => KeyOf(runs[i]))
  }

  ghost predicate DistinctRuns(runs: seq<PlannedRun>) {
    NoDup(Keys(runs))
  }

  /** The runs made up for a plan without any never clash, even if its commands repeat. */
  lemma FallbackRunsDiffer(plan: Plan)
    ensures DistinctRuns(FallbackRuns(plan))
  {
    var runs := FallbackRuns(plan);
    forall i, j | 0 <= i < j < |runs| ensures Keys(runs)[i] != Keys(runs)[j] {
      if runs[i].lane == runs[j].lane {
        var n := |"command-"|;
        assert runs[i].lane[n..] == Decimal(i) && runs[j].lane[n..] == Decimal(j);
        DecimalInjective(i, j);
      }
    }
  }

  /** Every plan that routing builds has distinct runs. */
  lemma BuiltPlanRunsDiffer(plan: ProofPlan.Plan, catalog: ProofPlan.Catalog)
    requires ProofPlan.Plans(plan, catalog, plan.changedPaths)
    ensures DistinctRuns(plan.runs)
  {
    var keys := Keys(plan.runs);
    forall i, j | 0 <= i < j < |keys| ensures keys[i] != keys[j] {
      assert plan.runs[i].command != plan.runs[j].command;
    }
  }

  // ----- files of a run -----

  function RepoPath(w: World): PathBuf {
    Parse(w.repo)
  }

  function Child(dir: PathBuf, name: string): PathBuf {
    PathBuf(dir.root, dir.parts + [Name(name)])
  }

  const LOG_DIR := PathBuf(Plain, [Name("target"), Name("jankurai"), Name("logs")])

  function LogDir(w: World): PathBuf {
    JoinPath(RepoPath(w), LOG_DIR)
  }

  /** The first six bytes of a command's hash, in hexadecimal. */
  function ShortHash(w: World, command: string): string {
    var digits := w.hash(command);
    Hex(if |digits| > 12 then digits[..12] else digits)
  }

  function ReceiptFile(w: World, outDir: PathBuf, i: nat, run: PlannedRun): PathBuf {
    Child(outDir, FileName(i, run.lane, ShortHash(w, run.command), JSON))
  }

  function LogFile(w: World, i: nat, run: PlannedRun): PathBuf {
    Child(LogDir(w), FileName(i, run.lane, ShortHash(w, run.command), LOG))
  }

  function Spelling(w: World, p: PathBuf): string {
    Show(Relative(RepoPath(w), p))
  }

  /** A run's two files: how the index spells them and where they are. */
  datatype Files = Files(receiptName: string, logName: string, receiptLoc: Loc, logLoc: Loc)

  function FilesFor(w: World, outDir: PathBuf, i: nat, run: PlannedRun): Files {
    var receipt, log := ReceiptFile(w, outDir, i, run), LogFile(w, i, run);
    Files(Spelling(w, receipt), Spelling(w, log), Locate(w.cwd, receipt), Locate(w.cwd, log))
  }

  /** One execution: the runs with their files, and the plan's digest. */
  datatype Job = Job(runs: seq<PlannedRun>, files: seq<Files>, planSha: string) {
    ghost predicate Valid() {
      |files| == |runs|
    }
  }

  function ManifestLoc(w: World, i: nat): Loc
    requires i < |w.manifests|
  {
    Denotes(w.cwd, RepoPath(w), w.manifests[i].path)
  }

  function ShaAt(w: World, fs: FS, loc: Loc): Option<string> {
    if loc in fs then Some(w.sha(fs[loc])) else None
  }

  function Fingerprints(w: World, fs: FS): seq<Option<string>> {
    seq(|w.manifests|, i requires 0 <= i < |w.manifests| => ShaAt(w, fs, ManifestLoc(w, i)))
  }

  // ----- what a run leaves -----

  function ExitCode(effect: Effect): int {
    if effect.exit.Some? then effect.exit.value else -1
  }

  function ReceiptFor(w: World, run: PlannedRun, files: Files, planSha: string, effect: Effect): Receipt {
    Receipt(run.lane, run.command, ExitCode(effect), run.changedPaths, run.owner, run.residualRisk,
            Some(files.logName), Some(files.receiptName), Some(planSha),
            Some(w.sha(Other(run.command))), Some(w.sha(Other(effect.log))), [])
  }

  /** The files after a run: whatever the command did, then its log, then its receipt. */
  function AfterRun(effect: Effect, files: Files, receipt: Receipt): FS {
    effect.fs[files.logLoc := Other(effect.log)][files.receiptLoc := Document(receipt)]
  }

  /** What happened run by run: the effects of the commands, and the receipts. */
  datatype Trace = Trace(states: seq<FS>, effects: seq<Effect>, receipts: seq<Receipt>)

  ghost predicate Turn(w: World, job: Job, t: Trace, i: nat)
    requires job.Valid() && i < |t.effects| <= |job.runs|
    requires |t.states| == |t.effects| + 1 && |t.receipts| == |t.effects|
  {
    && t.effects[i] == w.shell(i, job.runs[i].command, t.states[i])
    && t.receipts[i] == ReceiptFor(w, job.runs[i], job.files[i], job.planSha, t.effects[i])
    && t.states[i + 1] == AfterRun(t.effects[i], job.files[i], t.receipts[i])
  }

  /** The first runs of a job, each starting from the files the one before left. */
  ghost predicate Traces(t: Trace, w: World, job: Job, start: FS) {
    && job.Valid() && |t.effects| <= |job.runs| && |t.states| == |t.effects| + 1 && |t.receipts| == |t.effects|
    && t.states[0] == start
    && forall i | 0 <= i < |t.effects| :: Turn(w, job, t, i)
  }

  // ----- executing a plan -----

  datatype Failure = NoRunnableCommands | CommandFailed(command: string, lane: string, exit: int) | SomeFailed
  datatype Error = PlanUnreadable | NotAllowed(command: string) | BadReceipt(path: string)
  datatype Execution = Execution(index: Index, fs: FS, result: Result<(), Failure>)

  /** The lists the execution loop pushes to. */
  datatype Lists = Lists(receipts: seq<string>, commandDigests: seq<Digest>, logDigests: seq<Digest>,
                         artifactDigests: seq<Digest>, receiptDigests: seq<Digest>, logs: seq<string>,
                         failed: seq<string>, codes: seq<int>)

  function CommandDigest(w: World, run: PlannedRun): Digest {
    Digest(run.lane + "::" + run.command, w.sha(Other(run.command)))
  }

  /** The names of the receipts of failed runs, in order. */
  ghost function FailedNames(job: Job, t: Trace, n: nat): seq<string>
    requires n <= |t.receipts| <= |job.files|
  {
    if n == 0 then []
    else FailedNames(job, t, n - 1) + if t.receipts[n - 1].exitCode != 0 then [job.files[n - 1].receiptName] else []
  }

  ghost predicate Lengths(l: Lists, n: nat) {
    |l.receipts| == |l.commandDigests| == |l.logDigests| == |l.receiptDigests| == |l.logs| == |l.codes| == n
    && |l.artifactDigests| == 2 * n
  }

  /** A run's entries: its names and the digests of what was just written. */
  ghost predicate Entry(l: Lists, w: World, job: Job, t: Trace, i: nat)
    requires Lengths(l, |l.receipts|) && i < |l.receipts| == |t.receipts| == |t.effects| <= |job.runs| == |job.files|
  {
    var logDigest := Digest(job.files[i].logName, w.sha(Other(t.effects[i].log)));
    var receiptDigest := Digest(job.files[i].receiptName, w.sha(Document(t.receipts[i])));
    && l.receipts[i] == job.files[i].receiptName && l.logs[i] == job.files[i].logName
    && l.commandDigests[i] == CommandDigest(w, job.runs[i])
    && l.logDigests[i] == logDigest && l.receiptDigests[i] == receiptDigest
    && l.artifactDigests[2 * i] == logDigest && l.artifactDigests[2 * i + 1] == receiptDigest
    && l.codes[i] == t.receipts[i].exitCode
  }

  ghost predicate Gathered(l: Lists, w: World, job: Job, t: Trace) {
    var n := |t.effects|;
    && |job.runs| == |job.files| >= n == |t.receipts| && Lengths(l, n) && l.failed == FailedNames(job, t, n)
    && forall i | 0 <= i < n :: Entry(l, w, job, t, i)
  }

  /** All runs were executed, or those up to the first failure if that stops the execution. */
  ghost predicate Stops(t: Trace, job: Job, continueOnError: bool) {
    var n := |t.receipts|;
    && n <= |job.runs|
    && (forall i | 0 <= i < n - 1 :: continueOnError || t.receipts[i].exitCode == 0)
    && (n < |job.runs| ==> n > 0 && !continueOnError && t.receipts[n - 1].exitCode != 0)
  }

  /** Every run was executed and exited with 0. */
  ghost predicate AllSucceed(t: Trace, job: Job) {
    |t.receipts| == |job.runs| && forall i | 0 <= i < |t.receipts| :: t.receipts[i].exitCode == 0
  }

  ghost predicate Indexes(index: Index, w: World, plan: Plan, job: Job, start: FS, t: Trace) {
    && index.planDigest == job.planSha && index.manifest == Fingerprints(w, start)
    && index.commands == ProofPlan.Commands(job.runs) && index.changedPaths == plan.changedPaths && index.coverage == []
    && exists l :: Gathered(l, w, job, t) && Holds(index, l)
  }

  predicate Holds(index: Index, l: Lists) {
    && index.receipts == l.receipts && index.commandDigests == l.commandDigests && index.logDigests == l.logDigests
    && index.artifactDigests == l.artifactDigests && index.receiptDigests == l.receiptDigests && index.logs == l.logs
    && index.failedReceipts == l.failed
  }

  function JobOf(w: World, plan: Plan, outDir: string, planSha: string): (job: Job) {
    var runs := RunsOf(plan);
    Job(runs, seq(|runs|, i requires 0 <= i < |runs| => FilesFor(w, Parse(outDir), i, runs[i])), planSha)
  }

  function PlaceOf(w: World, path: string): Loc {
    Locate(w.cwd, Parse(path))
  }

  ghost predicate AllAllowed(allowed: string -> bool, runs: seq<PlannedRun>) {
    forall i | 0 <= i < |runs| :: allowed(runs[i].command)
  }

  /** How an execution of a job ends: the index written last, over whatever was there. */
  ghost predicate Executed(e: Execution, w: World, plan: Plan, job: Job, start: FS, indexPath: string,
                           continueOnError: bool, t: Trace)
  {
    && Traces(t, w, job, start) && Stops(t, job, continueOnError) && Indexes(e.index, w, plan, job, start, t)
    && e.fs == t.states[|t.effects|][PlaceOf(w, indexPath) := Other("evidence index")]
    && (e.result.Ok? <==> job.runs != [] && AllSucceed(t, job))
    && (e.result.Err? ==> e.result.error == FailureOf(t, job, continueOnError))
  }

  /** How a failed execution fails: it had nothing to run, a run stopped it, or it went on past failed runs. */
  ghost function FailureOf(t: Trace, job: Job, continueOnError: bool): Failure {
    if job.runs == [] then NoRunnableCommands
    else
      var n := |t.receipts|;
      if 0 < n <= |job.runs| && !continueOnError && t.receipts[n - 1].exitCode != 0
      then CommandFailed(job.runs[n - 1].command, job.runs[n - 1].lane, t.receipts[n - 1].exitCode)
      else SomeFailed
  }

  /** Runs the planned commands and writes receipts, logs and, last, the index. */
  method Execute(w: World, allowed: string -> bool, plan: Plan, planPath: string, outDir: string, indexPath: string,
                 continueOnError: bool, fs: FS)
    returns (r: Result<Execution, Error>, ghost t: Trace)
    ensures r.Err? <==> PlaceOf(w, planPath) !in fs || !AllAllowed(allowed, RunsOf(plan))
    ensures r.Ok? ==> Executed(r.value, w, plan, JobOf(w, plan, outDir, w.sha(fs[PlaceOf(w, planPath)])), fs, indexPath,
                               continueOnError, t)
  {
    t := Trace([], [], []);
    if PlaceOf(w, planPath) !in fs {
      return Err(PlanUnreadable), t;
    }
    var job := JobOf(w, plan, outDir, w.sha(fs[PlaceOf(w, planPath)]));
    for i := 0 to |job.runs|
      invariant forall j | 0 <= j < i :: allowed(job.runs[j].command)
    {
      if !allowed(job.runs[i].command) {
        return Err(NotAllowed(job.runs[i].command)), t;
      }
    }
    var e;
    e, t := ExecuteJob(w, plan, job, indexPath, continueOnError, fs);
    r := Ok(e);
  }

  method ExecuteJob(w: World, plan: Plan, job: Job, indexPath: string, continueOnError: bool, start: FS)
    returns (e: Execution, ghost t: Trace)
    requires job.Valid()
    ensures Executed(e, w, plan, job, start, indexPath, continueOnError, t)
  {
    var l, fs, failure;
    l, fs, failure, t := ExecuteRuns(w, job, continueOnError, start);
    var index := Index(job.planSha, Fingerprints(w, start), ProofPlan.Commands(job.runs), l.receipts, l.commandDigests,
                       l.logDigests, l.artifactDigests, l.receiptDigests, l.logs, [], l.failed, plan.changedPaths);
    assert Holds(index, l);
    fs := fs[PlaceOf(w, indexPath) := Other("evidence index")];
    var someFailed := exists i :: 0 <= i < |l.codes| && l.codes[i] != 0;
    CodesAreExits(l, w, job, t);
    var result: Result<(), Failure> :=
      if job.runs == [] then Err(NoRunnableCommands)
      else if failure.Some? then Err(failure.value)
      else if someFailed then Err(SomeFailed)
      else Ok(());
    e := Execution(index, fs, result);
  }

  lemma CodesAreExits(l: Lists, w: World, job: Job, t: Trace)
    requires Gathered(l, w, job, t)
    ensures |l.codes| == |t.receipts| && forall i | 0 <= i < |l.codes| :: l.codes[i] == t.receipts[i].exitCode
  {
    forall i | 0 <= i < |l.codes| ensures l.codes[i] == t.receipts[i].exitCode {
      assert Entry(l, w, job, t, i);
    }
  }

  /** The loop over the runs; `failure` is set when a failed run stopped it. */
  method ExecuteRuns(w: World, job: Job, continueOnError: bool, start: FS)
    returns (l: Lists, fs: FS, failure: Option<Failure>, ghost t: Trace)
    requires job.Valid()
    ensures Traces(t, w, job, start) && fs == t.states[|t.effects|]
    ensures Gathered(l, w, job, t) && Stops(t, job, continueOnError)
    ensures var n := |t.receipts|; failure.Some? <==> n > 0 && !continueOnError && t.receipts[n - 1].exitCode != 0
    ensures failure.Some? ==> failure.value == FailureOf(t, job, continueOnError)
  {
    l, fs, failure := Lists([], [], [], [], [], [], [], []), start, None;
    t := Trace([start], [], []);
    var i := 0;
    while i < |job.runs| && failure.None?
      invariant i == |t.receipts| && Traces(t, w, job, start) && fs == t.states[i]
      invariant Gathered(l, w, job, t)
      invariant forall j | 0 <= j < i - 1 :: continueOnError || t.receipts[j].exitCode == 0
      invariant failure.Some? <==> i > 0 && !continueOnError && t.receipts[i - 1].exitCode != 0
      invariant failure.Some? ==> failure.value == FailureOf(t, job, continueOnError)
      decreases |job.runs| - i
    {
      var exit;
      l, fs, exit, t := ExecuteRun(w, job, i, l, fs, start, t);
      if exit != 0 && !continueOnError {
        failure := Some(CommandFailed(job.runs[i].command, job.runs[i].lane, exit));
      }
      i := i + 1;
    }
  }

  /** Runs one command and records it. */
  method ExecuteRun(w: World, job: Job, i: nat, l: Lists, fs: FS, ghost start: FS, ghost t: Trace)
    returns (next: Lists, after: FS, exit: int, ghost more: Trace)
    requires Traces(t, w, job, start) && i == |t.effects| < |job.runs| && fs == t.states[i] && Gathered(l, w, job, t)
    ensures Traces(more, w, job, start) && Gathered(next, w, job, more)
    ensures |more.receipts| == i + 1 && after == more.states[i + 1] && exit == more.receipts[i].exitCode
    ensures forall j | 0 <= j < i :: more.receipts[j] == t.receipts[j]
  {
    var effect := w.shell(i, job.runs[i].command, fs);
    var receipt := ReceiptFor(w, job.runs[i], job.files[i], job.planSha, effect);
    after, exit := AfterRun(effect, job.files[i], receipt), receipt.exitCode;
    next := PushEntries(w, job.runs[i], job.files[i], receipt, l, effect.log);
    more := Trace(t.states + [after], t.effects + [effect], t.receipts + [receipt]);
    TraceGrows(w, job, start, t, more);
    EntriesKept(l, next, w, job, t, more);
  }

  /** What one run adds to the lists. */
  ghost predicate Pushed(l: Lists, next: Lists, w: World, run: PlannedRun, files: Files, receipt: Receipt,
                         log: string) {
    var logDigest := Digest(files.logName, w.sha(Other(log)));
    var receiptDigest := Digest(files.receiptName, w.sha(Document(receipt)));
    && next.receipts == l.receipts + [files.receiptName] && next.logs == l.logs + [files.logName]
    && next.commandDigests == l.commandDigests + [CommandDigest(w, run)]
    && next.logDigests == l.logDigests + [logDigest] && next.receiptDigests == l.receiptDigests + [receiptDigest]
    && next.artifactDigests == l.artifactDigests + [logDigest, receiptDigest]
    && next.codes == l.codes + [receipt.exitCode]
    && next.failed == l.failed + if receipt.exitCode != 0 then [files.receiptName] else []
  }

  method PushEntries(w: World, run: PlannedRun, files: Files, receipt: Receipt, l: Lists, ghost log: string)
    returns (next: Lists)
    requires receipt.logPath == Some(files.logName) && receipt.logSha == Some(w.sha(Other(log)))
    ensures Pushed(l, next, w, run, files, receipt, log)
  {
    var logDigest := Digest(receipt.logPath.value, receipt.logSha.value);
    var receiptDigest := Digest(files.receiptName, w.sha(Document(receipt)));
    next := Lists(l.receipts + [files.receiptName], l.commandDigests + [CommandDigest(w, run)],
                  l.logDigests + [logDigest],
                  l.artifactDigests + [logDigest, receiptDigest], l.receiptDigests + [receiptDigest],
                  l.logs + [receipt.logPath.value],
                  l.failed + (if receipt.exitCode != 0 then [files.receiptName] else []),
                  l.codes + [receipt.exitCode]);
  }

  lemma TraceGrows(w: World, job: Job, start: FS, t: Trace, more: Trace)
    requires Traces(t, w, job, start) && |t.effects| < |job.runs|
    requires |more.effects| == |t.effects| + 1 == |more.receipts| && |more.states| == |t.states| + 1
    requires more.effects[..|t.effects|] == t.effects && more.states[..|t.states|] == t.states
    requires more.receipts[..|t.effects|] == t.receipts
    requires Turn(w, job, more, |t.effects|)
    ensures Traces(more, w, job, start)
  {
    forall i | 0 <= i < |more.effects| ensures Turn(w, job, more, i) {
      if i < |t.effects| {
        assert Turn(w, job, t, i);
        assert more.effects[..|t.effects|][i] == t.effects[i] && more.receipts[..|t.effects|][i] == t.receipts[i];
        assert more.states[..|t.states|][i] == t.states[i] && more.states[..|t.states|][i + 1] == t.states[i + 1];
      }
    }
  }

  lemma {:induction false} FailedNamesPrefix(job: Job, t: Trace, more: Trace, n: nat)
    requires n <= |t.receipts| <= |more.receipts| <= |job.files| && more.receipts[..|t.receipts|] == t.receipts
    ensures FailedNames(job, t, n) == FailedNames(job, more, n)
  {
    if n > 0 {
      FailedNamesPrefix(job, t, more, n - 1);
      assert more.receipts[..|t.receipts|][n - 1] == t.receipts[n - 1];
    }
  }

  lemma EntriesKept(l: Lists, next: Lists, w: World, job: Job, t: Trace, more: Trace)
    requires job.Valid() && Gathered(l, w, job, t) && |t.effects| < |job.runs|
    requires |more.effects| == |t.effects| + 1 == |more.receipts|
    requires more.effects[..|t.effects|] == t.effects && more.receipts[..|t.effects|] == t.receipts
    requires var i := |t.effects|; Pushed(l, next, w, job.runs[i], job.files[i], more.receipts[i], more.effects[i].log)
    ensures Gathered(next, w, job, more)
  {
    var n := |t.effects|;
    FailedNamesPrefix(job, t, more, n);
    forall i | 0 <= i < n + 1 ensures Entry(next, w, job, more, i) {
      if i < n {
        assert Entry(l, w, job, t, i);
        assert more.effects[..n][i] == t.effects[i] && more.receipts[..n][i] == t.receipts[i];
      }
    }
  }

  // ----- an execution is determined by its inputs -----

  lemma {:induction false} TracesAgree(w: World, job: Job, start: FS, t: Trace, u: Trace, k: nat)
    requires Traces(t, w, job, start) && Traces(u, w, job, start) && k <= |t.effects| && k <= |u.effects|
    ensures t.states[k] == u.states[k]
    ensures t.effects[..k] == u.effects[..k] && t.receipts[..k] == u.receipts[..k]
  {
    if k > 0 {
      TracesAgree(w, job, start, t, u, k - 1);
      assert Turn(w, job, t, k - 1) && Turn(w, job, u, k - 1);
      LastAgrees(t.effects, u.effects, k);
      LastAgrees(t.receipts, u.receipts, k);
    }
  }

  lemma LastAgrees<T>(xs: seq<T>, ys: seq<T>, k: nat)
    requires 0 < k <= |xs| && k <= |ys| && xs[..k - 1] == ys[..k - 1] && xs[k - 1] == ys[k - 1]
    ensures xs[..k] == ys[..k]
  {
    assert xs[..k] == xs[..k - 1] + [xs[k - 1]] && ys[..k] == ys[..k - 1] + [ys[k - 1]];
  }

  /** Two executions of a job stop after the same number of runs. */
  lemma StopsOnce(w: World, job: Job, start: FS, continueOnError: bool, t: Trace, u: Trace)
    requires Traces(t, w, job, start) && Traces(u, w, job, start)
    requires Stops(t, job, continueOnError) && Stops(u, job, continueOnError)
    ensures |t.effects| == |u.effects|
  {
    var n, m := |t.effects|, |u.effects|;
    var k := if n < m then n else m;
    TracesAgree(w, job, start, t, u, k);
    assert k > 0 ==> t.receipts[..k][k - 1] == u.receipts[..k][k - 1];
  }

  lemma TraceIsUnique(w: World, job: Job, start: FS, continueOnError: bool, t: Trace, u: Trace)
    requires Traces(t, w, job, start) && Traces(u, w, job, start)
    requires Stops(t, job, continueOnError) && Stops(u, job, continueOnError)
    ensures t == u
  {
    StopsOnce(w, job, start, continueOnError, t, u);
    var n := |t.effects|;
    forall k | 0 <= k <= n ensures t.states[k] == u.states[k] {
      TracesAgree(w, job, start, t, u, k);
    }
    TracesAgree(w, job, start, t, u, n);
    assert t.effects[..n] == t.effects && u.effects[..n] == u.effects;
    assert t.receipts[..n] == t.receipts && u.receipts[..n] == u.receipts;
  }

  lemma ListsAreUnique(w: World, job: Job, t: Trace, l: Lists, k: Lists)
    requires Gathered(l, w, job, t) && Gathered(k, w, job, t)
    ensures l == k
  {
    forall i | 0 <= i < |t.effects|
      ensures l.receipts[i] == k.receipts[i] && l.logs[i] == k.logs[i] && l.codes[i] == k.codes[i]
      ensures l.commandDigests[i] == k.commandDigests[i] && l.logDigests[i] == k.logDigests[i]
      ensures l.receiptDigests[i] == k.receiptDigests[i]
      ensures l.artifactDigests[2 * i] == k.artifactDigests[2 * i]
      ensures l.artifactDigests[2 * i + 1] == k.artifactDigests[2 * i + 1]
    {
      assert Entry(l, w, job, t, i) && Entry(k, w, job, t, i);
    }
    forall j | 0 <= j < |l.artifactDigests| ensures l.artifactDigests[j] == k.artifactDigests[j] {
      assert j == 2 * (j / 2) || j == 2 * (j / 2) + 1;
    }
  }

  /** Nothing about an execution is left open: its index, its files and its result follow from its inputs. */
  lemma ExecutionIsDetermined(e: Execution, f: Execution, w: World, plan: Plan, job: Job, start: FS, indexPath: string,
                              continueOnError: bool, t: Trace, u: Trace)
    requires Executed(e, w, plan, job, start, indexPath, continueOnError, t)
    requires Executed(f, w, plan, job, start, indexPath, continueOnError, u)
    ensures e.index == f.index && e.fs == f.fs && e.result == f.result && t == u
  {
    TraceIsUnique(w, job, start, continueOnError, t, u);
    var l :| Gathered(l, w, job, t) && Holds(e.index, l);
    var k :| Gathered(k, w, job, u) && Holds(f.index, k);
    ListsAreUnique(w, job, t, l, k);
    assert e.result.Ok? ==> e.result.value == ();
    assert f.result.Ok? ==> f.result.value == ();
  }
}
