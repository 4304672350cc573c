/** Executions that succeed and whose evidence is not sound. */
module ProofDisagreement {
  import opened Wrappers
  import opened EvidencePaths
  import opened Lexical
  import opened ProofAgreement
  import opened ProofCheck
  import opened ProofEvidence
  import opened Text

  // ----- a receipt directory that is not anchored -----

  /**
   * The condition on the receipt directory is needed. If it is not anchored and nothing happens to lie where the
   * spelling of the first receipt leads, the evidence is not sound, however well the runs went.
   */
  lemma UnanchoredReceiptsAreNotFound(w: World, plan: Plan, outDir: string, indexPath: string, planSha: string,
                                      continueOnError: bool, start: FS, e: Execution, t: Trace)
    requires Executed(e, w, plan, JobOf(w, plan, outDir, planSha), start, indexPath, continueOnError, t)
    requires |t.receipts| > 0
    requires !Anchored(w.cwd, RepoPath(w), ReceiptFile(w, Parse(outDir), 0, RunsOf(plan)[0]))
    requires Denotes(w.cwd, RepoPath(w), e.index.receipts[0]) !in e.fs
    ensures Denotes(w.cwd, RepoPath(w), e.index.receipts[0]) != JobOf(w, plan, outDir, planSha).files[0].receiptLoc
    ensures !Sound(w, e.fs, plan, planSha, e.index)
  {
    ExecutionRecordsTrace(e, w, plan, JobOf(w, plan, outDir, planSha), start, indexPath, continueOnError, t);
    UnanchoredSpelling(w, Parse(outDir), 0, RunsOf(plan)[0]);
    UnseenIsUnsound(w, e.fs, plan, planSha, e.index, 0, ViewOf(w, e.fs));
  }

  lemma UnanchoredSpelling(w: World, out: PathBuf, i: nat, run: PlannedRun)
    requires out.Valid() && !Anchored(w.cwd, RepoPath(w), ReceiptFile(w, out, i, run))
    ensures var f := FilesFor(w, out, i, run); Denotes(w.cwd, RepoPath(w), f.receiptName) != f.receiptLoc
  {
    HashIsPlain(w, run.command);
    FileNameIsComponent(i, run.lane, ShortHash(w, run.command), JSON);
    SpellingDenotesIffAnchored(w.cwd, RepoPath(w), ReceiptFile(w, out, i, run));
  }

  lemma UnseenIsUnsound(w: World, fs: FS, plan: Plan, planSha: string, index: Index, i: nat, view: View)
    requires view == ViewOf(w, fs) && i < |index.receipts| && view(index.receipts[i]).None?
    ensures !Sound(w, fs, plan, planSha, index)
  {
    assert !ReceiptHolds(w.sha, view, index.receiptDigests, KeySet(RunsOf(plan)), planSha, index.receipts[i]);
  }

  predicate PlainName(s: string) {
    '/' !in s && s != "" && s != "." && s != ".."
  }

  lemma PlainNameParses(s: string)
    requires PlainName(s)
    ensures Parse(s) == PathBuf(Plain, [Name(s)])
  {
    SplitPlain(s, '/');
    assert s[0] in s;
    assert Significant([s]) == [Name(s)] + Significant([s][1..]);
  }

  /** One run that exits with 0 and changes nothing, with receipts in a directory beside the repository. */
  ghost predicate QuietSuccess(w: World) {
    forall i, command, fs :: w.shell(i, command, fs) == Effect(Some(0), "", fs)
  }

  lemma BesideIsUnanchored(w: World, outDir: string, i: nat, run: PlannedRun)
    requires PlainName(w.repo) && PlainName(outDir) && w.repo != outDir
    ensures !Anchored(w.cwd, RepoPath(w), ReceiptFile(w, Parse(outDir), i, run))
    ensures |Denotes(w.cwd, RepoPath(w), FilesFor(w, Parse(outDir), i, run).receiptName)| == |w.cwd| + 3
  {
    PlainNameParses(w.repo);
    PlainNameParses(outDir);
    var p := ReceiptFile(w, Parse(outDir), i, run);
    HashIsPlain(w, run.command);
    FileNameIsComponent(i, run.lane, ShortHash(w, run.command), JSON);
    assert p.parts[0] == Name(outDir);
    assert |Locate(w.cwd, RepoPath(w))| == |w.cwd| + 1;
    ShownReads(RepoPath(w), p);
  }

  lemma FilePlaceLengths(w: World, outDir: string, i: nat, run: PlannedRun)
    requires PlainName(w.repo) && PlainName(outDir)
    ensures |FilesFor(w, Parse(outDir), i, run).receiptLoc| == |w.cwd| + 2
    ensures |FilesFor(w, Parse(outDir), i, run).logLoc| == |w.cwd| + 5
  {
    PlainNameParses(w.repo);
    PlainNameParses(outDir);
    assert |LOG_DIR.parts| == 3;
  }

  lemma PlainPlaceLength(w: World, path: string)
    requires PlainName(path)
    ensures |PlaceOf(w, path)| == |w.cwd| + 1
  {
    PlainNameParses(path);
  }

  /** The files after one quiet run lie one, two or five components below the working directory. */
  lemma OneQuietRun(w: World, job: Job, start: FS, t: Trace)
    requires QuietSuccess(w) && Traces(t, w, job, start) && Stops(t, job, false) && |job.runs| == 1
    ensures |t.receipts| == 1 && t.receipts[0].exitCode == 0
    ensures t.states[1].Keys == start.Keys + {job.files[0].logLoc, job.files[0].receiptLoc}
  {
    assert Turn(w, job, t, 0);
    assert t.effects[0] == Effect(Some(0), "", start);
    TwoFilesWritten(start, job.files[0].logLoc, Other(""), job.files[0].receiptLoc, Document(t.receipts[0]));
  }

  lemma TwoFilesWritten(fs: FS, log: Loc, a: Content, receipt: Loc, b: Content)
    ensures fs[log := a][receipt := b].Keys == fs.Keys + {log, receipt}
  {
  }

  /**
   * An execution that succeeds and whose evidence is not sound: the repository and the receipt directory are two
   * directories below the working directory, and one quiet run exits with 0.
   */
  method GoodEvidenceNotFound(w: World, plan: Plan, fs: FS) returns (e: Execution)
    requires w.repo == "r" && QuietSuccess(w) && |plan.runs| == 1 && fs.Keys == {PlaceOf(w, "plan")}
    ensures e.result.Ok? && !Sound(w, e.fs, plan, w.sha(fs[PlaceOf(w, "plan")]), e.index)
  {
    var r;
    ghost var t;
    r, t := Execute(w, _ => true, plan, "plan", "out", "index", false, fs);
    e := r.value;
    NotFoundBeside(w, plan, "plan", "out", "index", w.sha(fs[PlaceOf(w, "plan")]), fs, e, t);
  }

  lemma NotFoundBeside(w: World, plan: Plan, planPath: string, outDir: string, indexPath: string, planSha: string,
                       fs: FS, e: Execution, t: Trace)
    requires PlainName(w.repo) && PlainName(planPath) && PlainName(outDir) && PlainName(indexPath)
    requires w.repo != outDir && QuietSuccess(w) && |plan.runs| == 1 && fs.Keys == {PlaceOf(w, planPath)}
    requires Executed(e, w, plan, JobOf(w, plan, outDir, planSha), fs, indexPath, false, t)
    ensures e.result.Ok? && !Sound(w, e.fs, plan, planSha, e.index)
  {
    OneReceiptListed(w, plan, indexPath, fs, e, JobOf(w, plan, outDir, planSha), t);
    PlainPlaceLength(w, planPath);
    PlainPlaceLength(w, indexPath);
    NothingThere(w, outDir, plan.runs[0], FilesFor(w, Parse(outDir), 0, plan.runs[0]), PlaceOf(w, planPath),
                 PlaceOf(w, indexPath), e.fs);
    BesideIsUnanchored(w, outDir, 0, plan.runs[0]);
    UnanchoredReceiptsAreNotFound(w, plan, outDir, indexPath, planSha, false, fs, e, t);
  }

  lemma OneReceiptListed(w: World, plan: Plan, indexPath: string, fs: FS, e: Execution, job: Job, t: Trace)
    requires QuietSuccess(w) && job.Valid() && |job.runs| == 1
    requires Executed(e, w, plan, job, fs, indexPath, false, t)
    ensures e.result.Ok? && |t.receipts| == 1 && |e.index.receipts| == 1
    ensures e.index.receipts[0] == job.files[0].receiptName
    ensures e.fs.Keys == fs.Keys + {PlaceOf(w, indexPath), job.files[0].logLoc, job.files[0].receiptLoc}
  {
    OneQuietRun(w, job, fs, t);
    ExecutionRecordsTrace(e, w, plan, job, fs, indexPath, false, t);
  }

  /** Three components below the working directory there is no file. */
  lemma NothingThere(w: World, outDir: string, run: PlannedRun, f: Files, planLoc: Loc, indexLoc: Loc, fs: FS)
    requires PlainName(w.repo) && PlainName(outDir) && w.repo != outDir
    requires f == FilesFor(w, Parse(outDir), 0, run) && |planLoc| == |indexLoc| == |w.cwd| + 1
    requires fs.Keys == {planLoc, indexLoc, f.logLoc, f.receiptLoc}
    ensures Denotes(w.cwd, RepoPath(w), f.receiptName) !in fs
  {
    BesideIsUnanchored(w, outDir, 0, run);
    FilePlaceLengths(w, outDir, 0, run);
    NoneAtDepth(planLoc, indexLoc, f.logLoc, f.receiptLoc, fs.Keys, Denotes(w.cwd, RepoPath(w), f.receiptName));
  }

  lemma NoneAtDepth(a: Loc, b: Loc, c: Loc, d: Loc, all: set<Loc>, loc: Loc)
    requires all == {a, b, c, d} && |loc| !in {|a|, |b|, |c|, |d|}
    ensures loc !in all
  {
  }

  // ----- a plan that is rewritten -----

  /** Every command exits with 0 and leaves `text` as the plan. */
  ghost predicate RewritesPlan(w: World, planPath: string, text: Content) {
    forall i, command, fs ::
      w.shell(i, command, fs) == Effect(Some(0), "", fs[PlaceOf(w, planPath) := text])
  }

  /**
   * A successful execution whose evidence is not sound although the process runs in the repository and all places
   * differ: its one command rewrites the plan. That holds for whatever plan the rewritten file parses to.
   */
  method RewrittenPlanNotSound(w: World, plan: Plan, fs: FS, text: Content) returns (e: Execution)
    requires w.repo == "." && w.manifests == [] && |plan.runs| == 1 && PlaceOf(w, "plan") in fs
    requires RewritesPlan(w, "plan", text) && w.sha(text) != w.sha(fs[PlaceOf(w, "plan")])
    ensures Anchored(w.cwd, RepoPath(w), Parse("out"))
    ensures Separate(w, "plan", "index", JobOf(w, plan, "out", w.sha(fs[PlaceOf(w, "plan")])).files)
    ensures e.result.Ok? && PlanOf(w, "plan", e.fs) == Some(text)
    ensures forall now :: !Sound(w, e.fs, now, w.sha(text), e.index)
  {
    var r;
    ghost var t;
    r, t := Execute(w, _ => true, plan, "plan", "out", "index", false, fs);
    e := r.value;
    RewrittenPlan(w, plan, "plan", "out", "index", w.sha(fs[PlaceOf(w, "plan")]), fs, text, e, t);
  }

  lemma RewrittenPlan(w: World, plan: Plan, planPath: string, outDir: string, indexPath: string, planSha: string,
                      fs: FS, text: Content, e: Execution, t: Trace)
    requires w.repo == "." && w.manifests == [] && |plan.runs| == 1
    requires PlainName(planPath) && PlainName(outDir) && PlainName(indexPath) && planPath != indexPath
    requires RewritesPlan(w, planPath, text) && w.sha(text) != planSha
    requires Executed(e, w, plan, JobOf(w, plan, outDir, planSha), fs, indexPath, false, t)
    ensures Anchored(w.cwd, RepoPath(w), Parse(outDir))
    ensures Separate(w, planPath, indexPath, JobOf(w, plan, outDir, planSha).files)
    ensures e.result.Ok? && PlanOf(w, planPath, e.fs) == Some(text)
    ensures forall now :: !Sound(w, e.fs, now, w.sha(text), e.index)
  {
    var job := JobOf(w, plan, outDir, planSha);
    PlacesHere(w, planPath, outDir, indexPath, job.files[0], plan.runs[0]);
    OneJobSeparate(w, planPath, indexPath, job.files);
    RewritingSucceeds(w, plan, job, planPath, indexPath, fs, text, e, t);
    UnsoundForAnyPlan(w, plan, job, indexPath, fs, e, t, w.sha(text));
  }

  lemma OneJobSeparate(w: World, planPath: string, indexPath: string, files: seq<Files>)
    requires w.manifests == [] && |files| == 1 && PlaceOf(w, planPath) != PlaceOf(w, indexPath)
    requires {PlaceOf(w, planPath), PlaceOf(w, indexPath)} !! {files[0].receiptLoc, files[0].logLoc}
    ensures Separate(w, planPath, indexPath, files)
  {
    assert FixedPlaces(w, planPath) == {PlaceOf(w, planPath)};
    assert files[0].receiptLoc in {files[0].receiptLoc, files[0].logLoc};
    assert files[0].logLoc in {files[0].receiptLoc, files[0].logLoc};
  }

  lemma RewritingSucceeds(w: World, plan: Plan, job: Job, planPath: string, indexPath: string, fs: FS, text: Content,
                          e: Execution, t: Trace)
    requires RewritesPlan(w, planPath, text) && |job.runs| == 1 && PlaceOf(w, planPath) != PlaceOf(w, indexPath)
    requires Executed(e, w, plan, job, fs, indexPath, false, t)
    requires PlaceOf(w, planPath) !in {job.files[0].receiptLoc, job.files[0].logLoc}
    ensures e.result.Ok? && PlanOf(w, planPath, e.fs) == Some(text)
  {
    var planLoc := PlaceOf(w, planPath);
    OneRewritingRun(w, job, fs, t, planLoc, text);
    OneGoodRun(w, plan, job, planLoc, indexPath, fs, e, t);
  }

  lemma OneGoodRun(w: World, plan: Plan, job: Job, planLoc: Loc, indexPath: string, fs: FS, e: Execution, t: Trace)
    requires Executed(e, w, plan, job, fs, indexPath, false, t) && |job.runs| == 1 && planLoc != PlaceOf(w, indexPath)
    requires |t.receipts| == 1 && t.receipts[0].exitCode == 0
    ensures e.result.Ok? && Lookup(e.fs, planLoc) == Lookup(t.states[1], planLoc)
  {
  }

  lemma UnsoundForAnyPlan(w: World, plan: Plan, job: Job, indexPath: string, start: FS, e: Execution, t: Trace,
                          planSha: string)
    requires Executed(e, w, plan, job, start, indexPath, false, t) && planSha != job.planSha
    ensures forall now :: !Sound(w, e.fs, now, planSha, e.index)
  {
    forall now ensures !Sound(w, e.fs, now, planSha, e.index) {
      ChangedPlanIsUnsound(w, plan, job, start, indexPath, false, e, t, e.fs, now, planSha);
    }
  }

  /** Run in the repository, the plan, the index, the receipt and the log lie in different places. */
  lemma PlacesHere(w: World, planPath: string, outDir: string, indexPath: string, f: Files, run: PlannedRun)
    requires w.repo == "." && f == FilesFor(w, Parse(outDir), 0, run)
    requires PlainName(planPath) && PlainName(outDir) && PlainName(indexPath) && planPath != indexPath
    ensures Anchored(w.cwd, RepoPath(w), Parse(outDir))
    ensures PlaceOf(w, planPath) != PlaceOf(w, indexPath)
    ensures {PlaceOf(w, planPath), PlaceOf(w, indexPath)} !! {f.receiptLoc, f.logLoc}
  {
    PlacesLengthsHere(w, outDir, f, run);
    PlainPlaceLength(w, planPath);
    PlainPlaceLength(w, indexPath);
    PlainPlacesDiffer(w, planPath, indexPath);
  }

  lemma PlacesLengthsHere(w: World, outDir: string, f: Files, run: PlannedRun)
    requires w.repo == "." && PlainName(outDir) && f == FilesFor(w, Parse(outDir), 0, run)
    ensures Anchored(w.cwd, RepoPath(w), Parse(outDir))
    ensures |f.receiptLoc| == |w.cwd| + 2 && |f.logLoc| == |w.cwd| + 4
  {
    DotReadsBack([]);
    PlainNameParses(outDir);
    assert |LOG_DIR.parts| == 3;
  }

  lemma PlainPlacesDiffer(w: World, a: string, b: string)
    requires PlainName(a) && PlainName(b) && a != b
    ensures PlaceOf(w, a) != PlaceOf(w, b)
  {
    PlainNameParses(a);
    PlainNameParses(b);
    assert PlaceOf(w, a)[|w.cwd|] != PlaceOf(w, b)[|w.cwd|];
  }

  lemma OneRewritingRun(w: World, job: Job, start: FS, t: Trace, planLoc: Loc, text: Content)
    requires Traces(t, w, job, start) && Stops(t, job, false) && |job.runs| == 1
    requires forall i, command, fs :: w.shell(i, command, fs) == Effect(Some(0), "", fs[planLoc := text])
    requires planLoc !in {job.files[0].receiptLoc, job.files[0].logLoc}
    ensures |t.receipts| == 1 && t.receipts[0].exitCode == 0 && Lookup(t.states[1], planLoc) == Some(text)
  {
    assert Turn(w, job, t, 0);
    assert t.effects[0] == Effect(Some(0), "", start[planLoc := text]);
  }

  /** Places that collide: an index written over the plan is taken for a changed plan. */
  lemma IndexOverPlanIsUnsound(w: World, plan: Plan, planPath: string, job: Job, indexPath: string,
                               continueOnError: bool, start: FS, e: Execution, t: Trace, now: Plan)
    requires Executed(e, w, plan, job, start, indexPath, continueOnError, t)
    requires PlaceOf(w, planPath) == PlaceOf(w, indexPath) && w.sha(Other("evidence index")) != job.planSha
    ensures PlanOf(w, planPath, e.fs) == Some(Other("evidence index"))
    ensures !Sound(w, e.fs, now, w.sha(Other("evidence index")), e.index)
  {
    ChangedPlanIsUnsound(w, plan, job, start, indexPath, continueOnError, e, t, e.fs, now,
                         w.sha(Other("evidence index")));
  }
}
