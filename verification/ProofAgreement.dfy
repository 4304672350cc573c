/** The producer of proof evidence and its checker agree. */
module ProofAgreement {
  import opened Wrappers
  import opened EvidencePaths
  import opened Lexical
  import opened ProofCheck
  import opened ProofEvidence
  import opened ProofVerdict
  import opened Sorting
  import opened Text

  // ----- what sound evidence means -----

  /** The runs the listed receipts are for. */
  ghost function ListedKeys(view: View, names: seq<string>): seq<Option<RunKey>> {
    seq(|names|, i requires 0 <= i < |names| => ListedKey(view, names[i]))
  }

  ghost function SomeKeys(runs: seq<PlannedRun>): seq<Option<RunKey>> {
    seq(|runs|, i requires 0 <= i < |runs| => Some(KeyOf(runs[i])))
  }

  /** Two lists without repetition that have the same elements have the same length. */
  lemma SameElementsSameLength<T>(xs: seq<T>, ys: seq<T>)
    requires NoDup(xs) && NoDup(ys) && forall x :: x in xs <==> x in ys
    ensures |xs| == |ys|
  {
    DistinctCount(xs);
    DistinctCount(ys);
    assert (set x | x in xs) == (set y | y in ys);
  }

  /**
   * Sound evidence is a one-to-one correspondence: as many receipts as planned runs, each run with exactly
   * one receipt and each receipt for exactly one run.
   */
  lemma SoundEvidenceMatchesRuns(w: World, fs: FS, plan: Plan, planSha: string, index: Index)
    requires Sound(w, fs, plan, planSha, index)
    ensures |index.receipts| == |RunsOf(plan)|
    ensures NoDup(ListedKeys(ViewOf(w, fs), index.receipts)) && NoDup(SomeKeys(RunsOf(plan)))
    ensures forall key :: key in ListedKeys(ViewOf(w, fs), index.receipts) <==> key in SomeKeys(RunsOf(plan))
  {
    var view, runs := ViewOf(w, fs), RunsOf(plan);
    var listed, planned := ListedKeys(view, index.receipts), SomeKeys(runs);
    ListedArePlanned(view, w.sha, index, KeySet(runs), planSha, runs);
    PlannedAreListed(view, index.receipts, runs);
    SameElementsSameLength(listed, planned);
  }

  lemma PlannedAreListed(view: View, names: seq<string>, runs: seq<PlannedRun>)
    requires DistinctRuns(runs) && forall key | key in KeySet(runs) :: Observes(view, names, key)
    ensures NoDup(SomeKeys(runs))
    ensures forall key | key in SomeKeys(runs) :: key in ListedKeys(view, names)
  {
    var listed, planned := ListedKeys(view, names), SomeKeys(runs);
    forall i, j | 0 <= i < j < |planned| ensures planned[i] != planned[j] {
      assert Keys(runs)[i] != Keys(runs)[j];
    }
    forall key | key in planned ensures key in listed {
      var i :| 0 <= i < |runs| && planned[i] == key;
      assert KeyOf(runs[i]) in KeySet(runs);
      assert Observes(view, names, KeyOf(runs[i]));
      var j :| 0 <= j < |names| && ListedKey(view, names[j]) == Some(KeyOf(runs[i]));
      assert listed[j] == key;
    }
  }

  lemma ListedArePlanned(view: View, sha: Content -> string, index: Index, expected: set<RunKey>, planSha: string,
                         runs: seq<PlannedRun>)
    requires ReceiptsHold(sha, view, index.receiptDigests, expected, planSha, index.receipts)
    requires expected == KeySet(runs)
    ensures NoDup(ListedKeys(view, index.receipts))
    ensures forall key | key in ListedKeys(view, index.receipts) :: key in SomeKeys(runs)
  {
    var listed := ListedKeys(view, index.receipts);
    forall key | key in listed ensures key in SomeKeys(runs) {
      var j :| 0 <= j < |listed| && listed[j] == key;
      assert ReceiptHolds(sha, view, index.receiptDigests, expected, planSha, index.receipts[j]);
      var i :| 0 <= i < |runs| && KeyOf(runs[i]) == key.value;
      assert SomeKeys(runs)[i] == key;
    }
  }

  /** A planned run without a receipt blocks, whatever the run is called. */
  lemma UncoveredRunBlocks(issues: seq<Issue>, lane: string, command: string)
    requires MissingRun(lane, command) in issues
    ensures ClassifyVerdict(Texts(issues)) == Blocked
  {
    FloorHolds(issues, MissingRun(lane, command));
  }

  /** Whatever is wrong with evidence, its verdict is at least as bad as that kind of thing. */
  lemma WrongGivesFloor(v: Verification, w: World, fs: FS, plan: Plan, planSha: string, index: Index, issue: Issue)
    requires Verifies(v, w, fs, plan, planSha, index) && Wrong(issue, w, fs, plan, planSha, index)
    ensures Badness(v.verdict) >= Badness(Floor(issue))
  {
    FloorHolds(v.issues, issue);
  }

  /** ...in particular a listed receipt. */
  lemma ListedGivesFloor(v: Verification, w: World, fs: FS, plan: Plan, planSha: string, index: Index, issue: Issue,
                         i: nat)
    requires Verifies(v, w, fs, plan, planSha, index) && i < |index.receipts|
    requires ListedKey(ViewOf(w, fs), index.receipts[i]).Some?
    requires ReceiptWrong(issue, w.sha, ViewOf(w, fs), index.receiptDigests, KeySet(RunsOf(plan)), planSha,
                          index.receipts[i])
    ensures Badness(v.verdict) >= Badness(Floor(issue))
  {
    ReceiptIsListed(issue, w.sha, ViewOf(w, fs), index.receiptDigests, KeySet(RunsOf(plan)), planSha, index.receipts,
                    i);
    WrongGivesFloor(v, w, fs, plan, planSha, index, issue);
  }

  lemma ReceiptIsListed(issue: Issue, sha: Content -> string, view: View, digests: seq<Digest>, expected: set<RunKey>,
                        planSha: string, names: seq<string>, i: nat)
    requires i < |names| && ListedKey(view, names[i]).Some?
    requires ReceiptWrong(issue, sha, view, digests, expected, planSha, names[i])
    ensures SomeListedWrong(issue, sha, view, digests, expected, planSha, names)
  {
    assert ListedWrong(issue, sha, view, digests, expected, planSha, names, i);
  }

  /** A listed receipt of a failed run makes the verdict incomplete or worse. */
  lemma FailedReceiptIsIncomplete(v: Verification, w: World, fs: FS, plan: Plan, planSha: string, index: Index, i: nat)
    requires Verifies(v, w, fs, plan, planSha, index) && i < |index.receipts|
    requires ListedKey(ViewOf(w, fs), index.receipts[i]).Some?
    requires ViewOf(w, fs)(index.receipts[i]).value.receipt.exitCode != 0
    ensures Badness(v.verdict) >= Badness(Incomplete)
  {
    var view, name := ViewOf(w, fs), index.receipts[i];
    var issue := FailureOf(w.sha, view, index.receiptDigests, KeySet(RunsOf(plan)), planSha, name);
    ListedGivesFloor(v, w, fs, plan, planSha, index, issue, i);
  }

  lemma FailureOf(sha: Content -> string, view: View, digests: seq<Digest>, expected: set<RunKey>, planSha: string,
                  name: string)
    returns (issue: Issue)
    requires ListedKey(view, name).Some? && view(name).value.receipt.exitCode != 0
    ensures ReceiptWrong(issue, sha, view, digests, expected, planSha, name) && Floor(issue) == Incomplete
  {
    var receipt := view(name).value.receipt;
    issue := ExitStatus(name, Integer(receipt.exitCode));
    assert OutcomeWrong(issue, planSha, name, receipt);
  }

  /** Something the listed receipt records differs from what is there now. */
  ghost predicate Differs(sha: Content -> string, view: View, digests: seq<Digest>, planSha: string, name: string)
    requires ListedKey(view, name).Some?
  {
    var receipt := view(name).value.receipt;
    || (FirstDigest(digests, name).Some? && FirstDigest(digests, name) != Some(sha(view(name).value)))
    || receipt.commandDigest != Some(sha(Other(receipt.command))) || receipt.planDigest != Some(planSha)
    || (receipt.logPath.Some? && view(receipt.logPath.value).Some?
        && receipt.logSha != Some(sha(view(receipt.logPath.value).value)))
  }

  /** A receipt, command, log or plan digest that differs makes the verdict stale or worse. */
  lemma DifferingReceiptIsStale(v: Verification, w: World, fs: FS, plan: Plan, planSha: string, index: Index, i: nat)
    requires Verifies(v, w, fs, plan, planSha, index) && i < |index.receipts|
    requires ListedKey(ViewOf(w, fs), index.receipts[i]).Some?
    requires Differs(w.sha, ViewOf(w, fs), index.receiptDigests, planSha, index.receipts[i])
    ensures Badness(v.verdict) >= Badness(Stale)
  {
    var view, name := ViewOf(w, fs), index.receipts[i];
    var issue := DifferenceOf(w.sha, view, index.receiptDigests, KeySet(RunsOf(plan)), planSha, name);
    ListedGivesFloor(v, w, fs, plan, planSha, index, issue, i);
  }

  lemma DifferenceOf(sha: Content -> string, view: View, digests: seq<Digest>, expected: set<RunKey>, planSha: string,
                     name: string)
    returns (issue: Issue)
    requires ListedKey(view, name).Some? && Differs(sha, view, digests, planSha, name)
    ensures ReceiptWrong(issue, sha, view, digests, expected, planSha, name) && Floor(issue) == Stale
  {
    var receipt, recorded := view(name).value.receipt, FirstDigest(digests, name);
    if recorded.Some? && recorded != Some(sha(view(name).value)) {
      issue := ReceiptDigestMismatch(name, recorded.value, sha(view(name).value));
    } else if receipt.commandDigest != Some(sha(Other(receipt.command))) {
      issue := CommandDigestMismatch(receipt.lane);
    } else if receipt.planDigest != Some(planSha) {
      issue := ReceiptPlanMismatch(name);
    } else {
      issue := LogDigestMismatch(receipt.logPath.value);
    }
  }

  /** Evidence of another plan, other commands or other manifests is stale or worse. */
  lemma DifferingHeaderIsStale(v: Verification, w: World, fs: FS, plan: Plan, planSha: string, index: Index)
    requires Verifies(v, w, fs, plan, planSha, index)
    requires || index.planDigest != planSha || index.commands != ProofPlan.Commands(RunsOf(plan))
             || !ManifestsHold(index.manifest, Fingerprints(w, fs))
    ensures Badness(v.verdict) >= Badness(Stale)
  {
    var issue := HeaderDifference(RunsOf(plan), plan.changedPaths, planSha, index, w.manifests, Fingerprints(w, fs));
    WrongGivesFloor(v, w, fs, plan, planSha, index, issue);
  }

  lemma HeaderDifference(runs: seq<PlannedRun>, changedPaths: seq<string>, planSha: string, index: Index,
                         manifests: seq<ManifestFile>, now: seq<Option<string>>)
    returns (issue: Issue)
    requires |now| == |manifests|
    requires || index.planDigest != planSha || index.commands != ProofPlan.Commands(runs)
             || !ManifestsHold(index.manifest, now)
    ensures || IdentityWrong(issue, runs, changedPaths, planSha, index)
            || ManifestWrong(issue, manifests, index.manifest, now)
    ensures Floor(issue) == Stale
  {
    if index.planDigest != planSha {
      issue := PlanDigestMismatch(index.planDigest, planSha);
    } else if index.commands != ProofPlan.Commands(runs) {
      issue := CommandInventoryMismatch;
    } else {
      var i :| 0 <= i < |now| && Recorded(index.manifest, i) != now[i];
      issue := ManifestMismatch(manifests[i].name, Recorded(index.manifest, i), now[i]);
    }
  }

  // ----- the files of an execution stay put -----

  /** No two files of an execution are the same place. */
  ghost predicate Apart(files: seq<Files>) {
    && (forall i, j | 0 <= i < j < |files| ::
          files[i].receiptLoc != files[j].receiptLoc && files[i].logLoc != files[j].logLoc)
    && (forall i, j | 0 <= i < |files| && 0 <= j < |files| :: files[i].receiptLoc != files[j].logLoc)
  }

  lemma ChildrenDiffer(cwd: Loc, a: PathBuf, b: PathBuf, name: string, other: string)
    requires name != other
    ensures Locate(cwd, Child(a, name)) != Locate(cwd, Child(b, other))
  {
    var at, at' := Locate(cwd, Child(a, name)), Locate(cwd, Child(b, other));
    assert at[|at| - 1] == Name(name) && at'[|at'| - 1] == Name(other);
  }

  lemma FilesDiffer(w: World, out: PathBuf, i: nat, run: PlannedRun, j: nat, other: PlannedRun)
    ensures FilesFor(w, out, i, run).receiptLoc != FilesFor(w, out, j, other).logLoc
    ensures i != j ==> FilesFor(w, out, i, run).receiptLoc != FilesFor(w, out, j, other).receiptLoc
    ensures i != j ==> FilesFor(w, out, i, run).logLoc != FilesFor(w, out, j, other).logLoc
  {
    var hash, hash' := ShortHash(w, run.command), ShortHash(w, other.command);
    ReceiptIsNoLog(i, run.lane, hash, j, other.lane, hash');
    ChildrenDiffer(w.cwd, out, LogDir(w), FileName(i, run.lane, hash, JSON), FileName(j, other.lane, hash', LOG));
    if i != j {
      NamesDiffer(i, run.lane, hash, j, other.lane, hash', JSON);
      NamesDiffer(i, run.lane, hash, j, other.lane, hash', LOG);
      ChildrenDiffer(w.cwd, out, out, FileName(i, run.lane, hash, JSON), FileName(j, other.lane, hash', JSON));
      ChildrenDiffer(w.cwd, LogDir(w), LogDir(w), FileName(i, run.lane, hash, LOG),
                     FileName(j, other.lane, hash', LOG));
    }
  }

  lemma NamesDiffer(i: nat, lane: string, hash: string, j: nat, lane': string, hash': string, ext: string)
    requires i != j
    ensures FileName(i, lane, hash, ext) != FileName(j, lane', hash', ext)
  {
    if FileName(i, lane, hash, ext) == FileName(j, lane', hash', ext) {
      FileNameInjective(i, lane, hash, ext, j, lane', hash', ext);
    }
  }

  /** Whatever the lanes and commands are, the runs' files are apart. */
  lemma JobFilesApart(w: World, plan: Plan, outDir: string, planSha: string)
    ensures Apart(JobOf(w, plan, outDir, planSha).files)
  {
    var job, out := JobOf(w, plan, outDir, planSha), Parse(outDir);
    forall i, j | 0 <= i < |job.files| && 0 <= j < |job.files|
      ensures job.files[i].receiptLoc != job.files[j].logLoc
      ensures i != j ==>
                job.files[i].receiptLoc != job.files[j].receiptLoc && job.files[i].logLoc != job.files[j].logLoc
    {
      FilesDiffer(w, out, i, job.runs[i], j, job.runs[j]);
    }
  }

  /** A place the commands must leave alone from the `i`th on: a fixed one, or a file of an earlier run. */
  ghost predicate Protected(loc: Loc, fixed: set<Loc>, files: seq<Files>, i: nat)
    requires i <= |files|
  {
    loc in fixed || exists j :: 0 <= j < i && (files[j].receiptLoc == loc || files[j].logLoc == loc)
  }

  /** No command changes the plan, a manifest, or what earlier runs wrote. */
  ghost predicate Respectful(t: Trace, files: seq<Files>, fixed: set<Loc>) {
    && |t.effects| <= |files| && |t.states| == |t.effects| + 1
    && forall i, loc | 0 <= i < |t.effects| && Protected(loc, fixed, files, i) ::
         Lookup(t.effects[i].fs, loc) == Lookup(t.states[i], loc)
  }

  /** The first `k` runs' files hold what those runs wrote. */
  ghost predicate Settled(files: seq<Files>, t: Trace, k: nat, fs: FS)
    requires k <= |t.effects| == |t.receipts| <= |files|
  {
    forall i | 0 <= i < k ::
      && Lookup(fs, files[i].receiptLoc) == Some(Document(t.receipts[i]))
      && Lookup(fs, files[i].logLoc) == Some(Other(t.effects[i].log))
  }

  lemma {:induction false} FilesSettle(w: World, job: Job, start: FS, t: Trace, fixed: set<Loc>, k: nat)
    requires Traces(t, w, job, start) && Respectful(t, job.files, fixed) && Apart(job.files) && k <= |t.effects|
    ensures Settled(job.files, t, k, t.states[k])
  {
    if k > 0 {
      FilesSettle(w, job, start, t, fixed, k - 1);
      assert Turn(w, job, t, k - 1);
      SettleOne(job.files, t, fixed, k - 1);
    }
  }

  lemma {:induction false} FixedPlacesStay(w: World, job: Job, start: FS, t: Trace, fixed: set<Loc>, loc: Loc, k: nat)
    requires Traces(t, w, job, start) && Respectful(t, job.files, fixed) && k <= |t.effects| && loc in fixed
    requires forall i | 0 <= i < |job.files| :: job.files[i].receiptLoc != loc && job.files[i].logLoc != loc
    ensures Lookup(t.states[k], loc) == Lookup(start, loc)
  {
    if k > 0 {
      FixedPlacesStay(w, job, start, t, fixed, loc, k - 1);
      assert Turn(w, job, t, k - 1);
      assert Protected(loc, fixed, job.files, k - 1);
    }
  }

  lemma SettleOne(files: seq<Files>, t: Trace, fixed: set<Loc>, k: nat)
    requires k < |t.effects| == |t.receipts| <= |files| && |t.states| == |t.effects| + 1
    requires Respectful(t, files, fixed) && Apart(files) && Settled(files, t, k, t.states[k])
    requires t.states[k + 1] == AfterRun(t.effects[k], files[k], t.receipts[k])
    ensures Settled(files, t, k + 1, t.states[k + 1])
  {
  }

  /** Commands that change no file are respectful, so the condition asks nothing of a read-only proof. */
  lemma QuietCommandsAreRespectful(w: World, job: Job, start: FS, t: Trace, fixed: set<Loc>)
    requires Traces(t, w, job, start)
    requires forall i, command, fs :: w.shell(i, command, fs).fs == fs
    ensures Respectful(t, job.files, fixed)
  {
    forall i | 0 <= i < |t.effects| ensures t.effects[i].fs == t.states[i] {
      assert Turn(w, job, t, i);
    }
  }

  /** What the checker reads besides receipts and logs. */
  ghost function FixedPlaces(w: World, planPath: string): set<Loc> {
    {PlaceOf(w, planPath)} + set i | 0 <= i < |w.manifests| :: ManifestLoc(w, i)
  }

  /** The plan, the manifests, the evidence index and the runs' files are different places. */
  ghost predicate Separate(w: World, planPath: string, indexPath: string, files: seq<Files>) {
    && PlaceOf(w, indexPath) !in FixedPlaces(w, planPath)
    && forall i | 0 <= i < |files| ::
         && files[i].receiptLoc !in FixedPlaces(w, planPath) && files[i].logLoc !in FixedPlaces(w, planPath)
         && files[i].receiptLoc != PlaceOf(w, indexPath) && files[i].logLoc != PlaceOf(w, indexPath)
  }

  // ----- the checker finds them -----

  /** The index's spellings lead to what the runs wrote. */
  ghost predicate Shows(view: View, files: seq<Files>, t: Trace) {
    && |t.effects| == |t.receipts| <= |files|
    && forall i | 0 <= i < |t.receipts| ::
         && view(files[i].receiptName) == Some(Document(t.receipts[i]))
         && view(files[i].logName) == Some(Other(t.effects[i].log))
  }

  lemma ChildAnchored(cwd: Loc, repo: PathBuf, dir: PathBuf, name: string)
    requires Anchored(cwd, repo, dir)
    ensures Anchored(cwd, repo, Child(dir, name))
  {
  }

  lemma LogDirAnchored(w: World)
    ensures Anchored(w.cwd, RepoPath(w), LogDir(w)) && LogDir(w).Valid()
  {
    LogDirIsPlain(LOG_DIR);
    JoinedAnchored(w.cwd, RepoPath(w), LOG_DIR);
  }

  lemma JoinedAnchored(cwd: Loc, repo: PathBuf, p: PathBuf)
    requires repo.Valid() && p.Valid() && p.root == Plain
    ensures Anchored(cwd, repo, JoinPath(repo, p)) && JoinPath(repo, p).Valid()
  {
    if repo != PathBuf(Plain, []) {
      assert repo.parts <= repo.parts + p.parts;
    }
  }

  lemma LogDirIsPlain(dir: PathBuf)
    requires dir == LOG_DIR
    ensures dir.Valid() && dir.root == Plain
  {
    var parts := dir.parts;
    assert parts[0].name[0] == 't' && parts[1].name[0] == 'j' && parts[2].name[0] == 'l';
  }

  lemma HashIsPlain(w: World, command: string)
    ensures AllSlugChars(ShortHash(w, command))
  {
    var digits := w.hash(command);
    HexIsPlain(if |digits| > 12 then digits[..12] else digits);
  }

  lemma SpellingsDenote(w: World, out: PathBuf, i: nat, run: PlannedRun)
    requires out.Valid() && Anchored(w.cwd, RepoPath(w), out)
    ensures var f := FilesFor(w, out, i, run);
            && Denotes(w.cwd, RepoPath(w), f.receiptName) == f.receiptLoc
            && Denotes(w.cwd, RepoPath(w), f.logName) == f.logLoc
  {
    var hash := ShortHash(w, run.command);
    HashIsPlain(w, run.command);
    FileNameIsComponent(i, run.lane, hash, JSON);
    FileNameIsComponent(i, run.lane, hash, LOG);
    LogDirAnchored(w);
    ChildAnchored(w.cwd, RepoPath(w), out, FileName(i, run.lane, hash, JSON));
    ChildAnchored(w.cwd, RepoPath(w), LogDir(w), FileName(i, run.lane, hash, LOG));
    SpellingDenotesIffAnchored(w.cwd, RepoPath(w), ReceiptFile(w, out, i, run));
    SpellingDenotesIffAnchored(w.cwd, RepoPath(w), LogFile(w, i, run));
  }

  ghost predicate NamedApart(files: seq<Files>) {
    forall i, j | 0 <= i < j < |files| :: files[i].receiptName != files[j].receiptName
  }

  /** Files of different names are spelled differently, even where one of them is the repository's own path. */
  lemma SpellingsDiffer(repo: PathBuf, dir: PathBuf, name: string, other: string)
    requires Child(dir, name).Valid() && Child(dir, other).Valid() && name != other
    ensures Show(Relative(repo, Child(dir, name))) != Show(Relative(repo, Child(dir, other)))
  {
    var p, q := Child(dir, name), Child(dir, other);
    ShownReads(repo, p);
    ShownReads(repo, q);
    RelativeEnds(repo, dir, name);
    RelativeEnds(repo, dir, other);
    if repo == p || repo == q {
      assert |repo.parts| == |dir.parts| + 1;
    }
    assert p.parts[|dir.parts|] == Name(name) && q.parts[|dir.parts|] == Name(other);
  }

  /** A spelling ends in the file's name, unless the file is the repository itself. */
  lemma RelativeEnds(repo: PathBuf, dir: PathBuf, name: string)
    ensures var parts := Relative(repo, Child(dir, name)).parts;
            if repo == Child(dir, name) then parts == [] else parts != [] && parts[|parts| - 1] == Name(name)
  {
    var p := Child(dir, name);
    if Under(repo, p) && |repo.parts| == |p.parts| {
      assert repo.parts == p.parts;
    }
  }

  lemma JobNamedApart(w: World, plan: Plan, outDir: string, planSha: string)
    ensures NamedApart(JobOf(w, plan, outDir, planSha).files)
  {
    var job, out := JobOf(w, plan, outDir, planSha), Parse(outDir);
    forall i, j | 0 <= i < j < |job.files| ensures job.files[i].receiptName != job.files[j].receiptName {
      ReceiptNamesDiffer(w, out, i, job.runs[i], j, job.runs[j]);
    }
  }

  lemma ReceiptNamesDiffer(w: World, out: PathBuf, i: nat, run: PlannedRun, j: nat, other: PlannedRun)
    requires out.Valid() && i != j
    ensures FilesFor(w, out, i, run).receiptName != FilesFor(w, out, j, other).receiptName
  {
    var hash, hash' := ShortHash(w, run.command), ShortHash(w, other.command);
    HashIsPlain(w, run.command);
    HashIsPlain(w, other.command);
    FileNameIsComponent(i, run.lane, hash, JSON);
    FileNameIsComponent(j, other.lane, hash', JSON);
    NamesDiffer(i, run.lane, hash, j, other.lane, hash', JSON);
    SpellingsDiffer(RepoPath(w), out, FileName(i, run.lane, hash, JSON), FileName(j, other.lane, hash', JSON));
  }

  /** Where the spellings lead, for a whole job. */
  lemma JobSpellingsDenote(w: World, plan: Plan, outDir: string, planSha: string)
    requires Anchored(w.cwd, RepoPath(w), Parse(outDir))
    ensures var files := JobOf(w, plan, outDir, planSha).files;
            forall i | 0 <= i < |files| ::
                 && Denotes(w.cwd, RepoPath(w), files[i].receiptName) == files[i].receiptLoc
                 && Denotes(w.cwd, RepoPath(w), files[i].logName) == files[i].logLoc
  {
    var job := JobOf(w, plan, outDir, planSha);
    forall i | 0 <= i < |job.files|
      ensures Denotes(w.cwd, RepoPath(w), job.files[i].receiptName) == job.files[i].receiptLoc
      ensures Denotes(w.cwd, RepoPath(w), job.files[i].logName) == job.files[i].logLoc
    {
      SpellingsDenote(w, Parse(outDir), i, job.runs[i]);
    }
  }

  /**
   * The conditions of the agreement: commands leave the evidence alone, its places differ, and its names can be
   * followed.
   */
  ghost predicate Undisturbed(w: World, plan: Plan, planPath: string, outDir: string, indexPath: string,
                              planSha: string,
                              t: Trace)
  {
    && Anchored(w.cwd, RepoPath(w), Parse(outDir))
    && Separate(w, planPath, indexPath, JobOf(w, plan, outDir, planSha).files)
    && Respectful(t, JobOf(w, plan, outDir, planSha).files, FixedPlaces(w, planPath))
  }

  /** After an undisturbed execution the checker sees what the runs wrote, and the plan and manifests as they were. */
  lemma CheckerSeesTheRuns(w: World, plan: Plan, planPath: string, outDir: string, indexPath: string, planSha: string,
                           start: FS, e: Execution, continueOnError: bool, t: Trace)
    requires Executed(e, w, plan, JobOf(w, plan, outDir, planSha), start, indexPath, continueOnError, t)
    requires Undisturbed(w, plan, planPath, outDir, indexPath, planSha, t)
    ensures Shows(ViewOf(w, e.fs), JobOf(w, plan, outDir, planSha).files, t)
    ensures forall loc | loc in FixedPlaces(w, planPath) :: Lookup(e.fs, loc) == Lookup(start, loc)
  {
    var job, n := JobOf(w, plan, outDir, planSha), |t.effects|;
    JobFilesApart(w, plan, outDir, planSha);
    FilesSettle(w, job, start, t, FixedPlaces(w, planPath), n);
    forall loc | loc in FixedPlaces(w, planPath) ensures Lookup(t.states[n], loc) == Lookup(start, loc) {
      FixedPlacesStay(w, job, start, t, FixedPlaces(w, planPath), loc, n);
    }
    JobSpellingsDenote(w, plan, outDir, planSha);
    IndexKeeps(w, job.files, t, planPath, indexPath, t.states[n], e.fs);
    SettledShows(w, job.files, t, e.fs);
  }

  lemma IndexKeeps(w: World, files: seq<Files>, t: Trace, planPath: string, indexPath: string, before: FS, after: FS)
    requires |t.effects| == |t.receipts| <= |files| && Settled(files, t, |t.effects|, before)
    requires Separate(w, planPath, indexPath, files)
    requires after == before[PlaceOf(w, indexPath) := Other("evidence index")]
    ensures Settled(files, t, |t.effects|, after)
    ensures forall loc | loc in FixedPlaces(w, planPath) :: Lookup(after, loc) == Lookup(before, loc)
  {
  }

  lemma SettledShows(w: World, files: seq<Files>, t: Trace, fs: FS)
    requires |t.effects| == |t.receipts| <= |files| && Settled(files, t, |t.effects|, fs)
    requires forall i | 0 <= i < |files| ::
               && Denotes(w.cwd, RepoPath(w), files[i].receiptName) == files[i].receiptLoc
               && Denotes(w.cwd, RepoPath(w), files[i].logName) == files[i].logLoc
    ensures Shows(ViewOf(w, fs), files, t)
  {
  }

  // ----- agreement -----

  function PlanOf(w: World, planPath: string, fs: FS): Option<Content> {
    Lookup(fs, PlaceOf(w, planPath))
  }

  lemma {:induction false} FirstDigestAt(digests: seq<Digest>, i: nat)
    requires i < |digests| && forall j | 0 <= j < i :: digests[j].path != digests[i].path
    ensures FirstDigest(digests, digests[i].path) == Some(digests[i].sha)
  {
    if i > 0 {
      assert forall j | 0 <= j < i - 1 :: digests[1..][j] == digests[j + 1];
      FirstDigestAt(digests[1..], i - 1);
    }
  }

  /** What ties an index to the execution it records. */
  ghost predicate RecordsTrace(index: Index, w: World, job: Job, t: Trace) {
    && job.Valid() && |index.receipts| == |index.receiptDigests| == |t.receipts| == |t.effects| <= |job.runs|
    && forall i | 0 <= i < |t.receipts| ::
         && index.receipts[i] == job.files[i].receiptName
         && index.receiptDigests[i] == Digest(job.files[i].receiptName, w.sha(Document(t.receipts[i])))
         && t.receipts[i] == ReceiptFor(w, job.runs[i], job.files[i], job.planSha, t.effects[i])
  }

  lemma ExecutionRecordsTrace(e: Execution, w: World, plan: Plan, job: Job, start: FS, indexPath: string,
                              continueOnError: bool, t: Trace)
    requires Executed(e, w, plan, job, start, indexPath, continueOnError, t)
    ensures RecordsTrace(e.index, w, job, t)
  {
    var l :| Gathered(l, w, job, t) && Holds(e.index, l);
    forall i | 0 <= i < |t.receipts|
      ensures e.index.receipts[i] == job.files[i].receiptName
      ensures e.index.receiptDigests[i] == Digest(job.files[i].receiptName, w.sha(Document(t.receipts[i])))
      ensures t.receipts[i] == ReceiptFor(w, job.runs[i], job.files[i], job.planSha, t.effects[i])
    {
      assert Entry(l, w, job, t, i) && Turn(w, job, t, i);
    }
  }

  /** A recorded receipt holds exactly if its run exited with 0. */
  lemma RecordedReceiptHolds(index: Index, w: World, job: Job, t: Trace, view: View, i: nat)
    requires RecordsTrace(index, w, job, t) && Shows(view, job.files, t) && NamedApart(job.files) && i < |t.receipts|
    ensures ListedKey(view, index.receipts[i]) == Some(KeyOf(job.runs[i]))
    ensures ReceiptHolds(w.sha, view, index.receiptDigests, KeySet(job.runs), job.planSha, index.receipts[i])
       <==> t.receipts[i].exitCode == 0
  {
    FirstDigestAt(index.receiptDigests, i);
    assert KeyOf(job.runs[i]) in KeySet(job.runs);
  }

  lemma RecordedReceiptsHold(index: Index, w: World, job: Job, t: Trace, view: View)
    requires RecordsTrace(index, w, job, t) && Shows(view, job.files, t)
    requires NamedApart(job.files) && DistinctRuns(job.runs)
    ensures ReceiptsHold(w.sha, view, index.receiptDigests, KeySet(job.runs), job.planSha, index.receipts)
       <==> forall i | 0 <= i < |t.receipts| :: t.receipts[i].exitCode == 0
  {
    forall i | 0 <= i < |t.receipts|
      ensures ListedKey(view, index.receipts[i]) == Some(KeyOf(job.runs[i]))
      ensures ReceiptHolds(w.sha, view, index.receiptDigests, KeySet(job.runs), job.planSha, index.receipts[i])
         <==> t.receipts[i].exitCode == 0
    {
      RecordedReceiptHolds(index, w, job, t, view, i);
    }
    forall i, j | 0 <= i < j < |index.receipts|
      ensures ListedKey(view, index.receipts[i]) != ListedKey(view, index.receipts[j])
    {
      assert Keys(job.runs)[i] != Keys(job.runs)[j];
    }
  }

  /** All runs are observed when all were executed. */
  lemma AllRunsObserved(index: Index, w: World, job: Job, t: Trace, view: View)
    requires RecordsTrace(index, w, job, t) && Shows(view, job.files, t) && NamedApart(job.files)
    requires |t.receipts| == |job.runs|
    ensures forall key | key in KeySet(job.runs) :: Observes(view, index.receipts, key)
  {
  }

  /** The header holds exactly for distinct runs and manifests as they were. */
  lemma HeaderAgrees(w: World, plan: Plan, fs: FS, start: FS, index: Index, job: Job, t: Trace)
    requires job.runs == RunsOf(plan) && Indexes(index, w, plan, job, start, t)
    ensures HeaderHolds(w, fs, plan, job.planSha, index)
       <==> job.runs != [] && DistinctRuns(job.runs) && Fingerprints(w, fs) == Fingerprints(w, start)
  {
    var was, now := Fingerprints(w, start), Fingerprints(w, fs);
    if ManifestsHold(index.manifest, now) {
      forall i | 0 <= i < |now| ensures was[i] == now[i] {
        assert Recorded(index.manifest, i) == now[i];
      }
    }
  }

  /** An execution that stopped early recorded a failure. */
  lemma StoppedEarlyFailed(t: Trace, job: Job, continueOnError: bool)
    requires Stops(t, job, continueOnError) && forall i | 0 <= i < |t.receipts| :: t.receipts[i].exitCode == 0
    ensures |t.receipts| == |job.runs|
  {
  }

  lemma ReceiptsAgree(index: Index, w: World, job: Job, t: Trace, view: View, continueOnError: bool)
    requires RecordsTrace(index, w, job, t) && Shows(view, job.files, t)
    requires NamedApart(job.files) && DistinctRuns(job.runs)
    requires Stops(t, job, continueOnError)
    ensures && ReceiptsHold(w.sha, view, index.receiptDigests, KeySet(job.runs), job.planSha, index.receipts)
            && (forall key | key in KeySet(job.runs) :: Observes(view, index.receipts, key))
       <==> AllSucceed(t, job)
  {
    RecordedReceiptsHold(index, w, job, t, view);
    if forall i | 0 <= i < |t.receipts| :: t.receipts[i].exitCode == 0 {
      StoppedEarlyFailed(t, job, continueOnError);
      AllRunsObserved(index, w, job, t, view);
    }
  }

  lemma RecordedReceiptsParse(index: Index, w: World, job: Job, t: Trace, view: View)
    requires RecordsTrace(index, w, job, t) && Shows(view, job.files, t)
    ensures forall i | 0 <= i < |index.receipts| :: !Unparseable(view, index.receipts[i])
  {
  }

  /** Where the receipts are as written, soundness is success of distinct runs and `same` manifests. */
  lemma SoundInParts(w: World, fs: FS, plan: Plan, index: Index, job: Job, t: Trace, continueOnError: bool, view: View,
                     same: bool)
    requires job.runs == RunsOf(plan) && view == ViewOf(w, fs)
    requires HeaderHolds(w, fs, plan, job.planSha, index) <==> job.runs != [] && DistinctRuns(job.runs) && same
    requires RecordsTrace(index, w, job, t) && Shows(view, job.files, t) && NamedApart(job.files)
    requires Stops(t, job, continueOnError)
    ensures Sound(w, fs, plan, job.planSha, index)
       <==> job.runs != [] && AllSucceed(t, job) && DistinctRuns(job.runs) && same
  {
    if DistinctRuns(job.runs) {
      ReceiptsAgree(index, w, job, t, view, continueOnError);
    }
  }

  // ----- the exact condition -----

  /** No file has the digest of the content without having the content. */
  ghost predicate Unmistaken(sha: Content -> string, fs: FS, content: Content) {
    forall loc | loc in fs && sha(fs[loc]) == sha(content) :: fs[loc] == content
  }

  /** No file can be taken by its digest for the plan, a receipt or a log that it is not. */
  ghost predicate NoCollision(w: World, fs: FS, plan: Content, t: Trace) {
    && Unmistaken(w.sha, fs, plan)
    && (forall i | 0 <= i < |t.receipts| :: Unmistaken(w.sha, fs, Document(t.receipts[i])))
    && (forall i | 0 <= i < |t.effects| :: Unmistaken(w.sha, fs, Other(t.effects[i].log)))
  }

  /** What the verifier reads is as it was: the plan and the manifests, and what the runs wrote. */
  ghost predicate NothingChanged(w: World, planPath: string, start: FS, fs: FS, files: seq<Files>, t: Trace) {
    && PlanOf(w, planPath, fs) == PlanOf(w, planPath, start)
    && Fingerprints(w, fs) == Fingerprints(w, start)
    && Shows(ViewOf(w, fs), files, t)
  }

  /** A listed receipt that holds is the one that was written, and so is its log. */
  lemma HeldReceiptIsShown(index: Index, w: World, job: Job, t: Trace, fs: FS, i: nat, view: View)
    requires RecordsTrace(index, w, job, t) && NamedApart(job.files) && i < |t.receipts| && view == ViewOf(w, fs)
    requires Unmistaken(w.sha, fs, Document(t.receipts[i])) && Unmistaken(w.sha, fs, Other(t.effects[i].log))
    requires ReceiptHolds(w.sha, view, index.receiptDigests, KeySet(job.runs), job.planSha, index.receipts[i])
    ensures view(job.files[i].receiptName) == Some(Document(t.receipts[i]))
    ensures view(job.files[i].logName) == Some(Other(t.effects[i].log))
  {
    FirstDigestAt(index.receiptDigests, i);
    assert LogHolds(w.sha, view, t.receipts[i]);
  }

  lemma SoundShows(index: Index, w: World, plan: Plan, job: Job, t: Trace, fs: FS)
    requires RecordsTrace(index, w, job, t) && NamedApart(job.files) && job.runs == RunsOf(plan)
    requires forall i | 0 <= i < |t.receipts| :: Unmistaken(w.sha, fs, Document(t.receipts[i]))
    requires forall i | 0 <= i < |t.effects| :: Unmistaken(w.sha, fs, Other(t.effects[i].log))
    requires Sound(w, fs, plan, job.planSha, index)
    ensures Shows(ViewOf(w, fs), job.files, t)
  {
    var view := ViewOf(w, fs);
    forall i | 0 <= i < |t.receipts|
      ensures view(job.files[i].receiptName) == Some(Document(t.receipts[i]))
      ensures view(job.files[i].logName) == Some(Other(t.effects[i].log))
    {
      assert ReceiptHolds(w.sha, view, index.receiptDigests, KeySet(job.runs), job.planSha, index.receipts[i]);
      HeldReceiptIsShown(index, w, job, t, fs, i, view);
    }
  }

  /** Where nothing changed, evidence is sound exactly if the execution succeeded; this asks nothing of the digests. */
  lemma UnchangedEvidence(w: World, plan: Plan, indexPath: string, continueOnError: bool, start: FS, e: Execution,
                          job: Job, t: Trace, fs: FS)
    requires Executed(e, w, plan, job, start, indexPath, continueOnError, t)
    requires job.runs == RunsOf(plan) && NamedApart(job.files) && Shows(ViewOf(w, fs), job.files, t)
    ensures Sound(w, fs, plan, job.planSha, e.index)
       <==> e.result.Ok? && DistinctRuns(job.runs) && Fingerprints(w, fs) == Fingerprints(w, start)
    ensures forall i | 0 <= i < |e.index.receipts| :: !Unparseable(ViewOf(w, fs), e.index.receipts[i])
  {
    var view := ViewOf(w, fs);
    HeaderAgrees(w, plan, fs, start, e.index, job, t);
    ExecutionRecordsTrace(e, w, plan, job, start, indexPath, continueOnError, t);
    RecordedReceiptsParse(e.index, w, job, t, view);
    SoundInParts(w, fs, plan, e.index, job, t, continueOnError, view, Fingerprints(w, fs) == Fingerprints(w, start));
  }

  /**
   * Producer and checker agree, for any plan, commands, directories, error setting and later files `fs`: evidence is
   * sound exactly if the execution succeeded, the plan's runs are distinct, and nothing that the verifier reads has
   * changed since it was written. `now` is the plan that the plan file then holds.
   */
  lemma EvidenceSoundIffSucceeded(w: World, plan: Plan, planPath: string, outDir: string, indexPath: string,
                                  continueOnError: bool, start: FS, e: Execution, t: Trace, fs: FS, now: Plan)
    requires PlanOf(w, planPath, start).Some? && PlanOf(w, planPath, fs).Some?
    requires PlanOf(w, planPath, fs) == PlanOf(w, planPath, start) ==> now == plan
    requires var planSha := w.sha(PlanOf(w, planPath, start).value);
             Executed(e, w, plan, JobOf(w, plan, outDir, planSha), start, indexPath, continueOnError, t)
    requires NoCollision(w, fs, PlanOf(w, planPath, start).value, t)
    ensures var files := JobOf(w, plan, outDir, w.sha(PlanOf(w, planPath, start).value)).files;
            Sound(w, fs, now, w.sha(PlanOf(w, planPath, fs).value), e.index)
            <==> e.result.Ok? && DistinctRuns(RunsOf(plan)) && NothingChanged(w, planPath, start, fs, files, t)
  {
    var was, current := PlanOf(w, planPath, start).value, PlanOf(w, planPath, fs).value;
    var job := JobOf(w, plan, outDir, w.sha(was));
    if was != current {
      ChangedPlanIsUnsound(w, plan, job, start, indexPath, continueOnError, e, t, fs, now, w.sha(current));
    } else {
      JobNamedApart(w, plan, outDir, w.sha(was));
      SamePlanSoundIff(w, plan, indexPath, continueOnError, start, e, job, t, fs);
    }
  }

  /** With the plan as it was, soundness is success, distinct runs, and unchanged manifests, receipts and logs. */
  lemma SamePlanSoundIff(w: World, plan: Plan, indexPath: string, continueOnError: bool, start: FS, e: Execution,
                         job: Job, t: Trace, fs: FS)
    requires Executed(e, w, plan, job, start, indexPath, continueOnError, t)
    requires job.runs == RunsOf(plan) && NamedApart(job.files)
    requires forall i | 0 <= i < |t.receipts| :: Unmistaken(w.sha, fs, Document(t.receipts[i]))
    requires forall i | 0 <= i < |t.effects| :: Unmistaken(w.sha, fs, Other(t.effects[i].log))
    ensures Sound(w, fs, plan, job.planSha, e.index)
       <==> && e.result.Ok? && DistinctRuns(job.runs) && Fingerprints(w, fs) == Fingerprints(w, start)
            && Shows(ViewOf(w, fs), job.files, t)
  {
    ExecutionRecordsTrace(e, w, plan, job, start, indexPath, continueOnError, t);
    if Sound(w, fs, plan, job.planSha, e.index) {
      SoundShows(e.index, w, plan, job, t, fs);
    }
    if Shows(ViewOf(w, fs), job.files, t) {
      UnchangedEvidence(w, plan, indexPath, continueOnError, start, e, job, t, fs);
    }
  }

  /** Evidence of a plan with another digest is not sound. */
  lemma ChangedPlanIsUnsound(w: World, plan: Plan, job: Job, start: FS, indexPath: string, continueOnError: bool,
                             e: Execution, t: Trace, fs: FS, now: Plan, planSha: string)
    requires Executed(e, w, plan, job, start, indexPath, continueOnError, t) && planSha != job.planSha
    ensures !Sound(w, fs, now, planSha, e.index)
  {
  }

  /**
   * A condition under which nothing changes, whatever the digests: evidence of an undisturbed execution is sound
   * exactly when the execution succeeded and the plan's runs are distinct.
   */
  lemma UndisturbedEvidenceSound(w: World, plan: Plan, planPath: string, outDir: string, indexPath: string,
                                 planSha: string, continueOnError: bool, start: FS, e: Execution, t: Trace)
    requires PlanOf(w, planPath, start).Some? && planSha == w.sha(PlanOf(w, planPath, start).value)
    requires Executed(e, w, plan, JobOf(w, plan, outDir, planSha), start, indexPath, continueOnError, t)
    requires Undisturbed(w, plan, planPath, outDir, indexPath, planSha, t)
    ensures NothingChanged(w, planPath, start, e.fs, JobOf(w, plan, outDir, planSha).files, t)
    ensures Sound(w, e.fs, plan, planSha, e.index) <==> e.result.Ok? && DistinctRuns(RunsOf(plan))
    ensures forall i | 0 <= i < |e.index.receipts| :: !Unparseable(ViewOf(w, e.fs), e.index.receipts[i])
  {
    var job := JobOf(w, plan, outDir, planSha);
    CheckerSeesTheRuns(w, plan, planPath, outDir, indexPath, planSha, start, e, continueOnError, t);
    FixedPlacesAgree(w, planPath, start, e.fs);
    JobNamedApart(w, plan, outDir, planSha);
    UnchangedEvidence(w, plan, indexPath, continueOnError, start, e, job, t, e.fs);
  }

  lemma FixedPlacesAgree(w: World, planPath: string, start: FS, fs: FS)
    requires forall loc | loc in FixedPlaces(w, planPath) :: Lookup(fs, loc) == Lookup(start, loc)
    ensures PlanOf(w, planPath, fs) == PlanOf(w, planPath, start) && Fingerprints(w, fs) == Fingerprints(w, start)
  {
    forall i | 0 <= i < |w.manifests| ensures Fingerprints(w, fs)[i] == Fingerprints(w, start)[i] {
      assert ManifestLoc(w, i) in FixedPlaces(w, planPath);
      assert Lookup(fs, ManifestLoc(w, i)) == Lookup(start, ManifestLoc(w, i));
    }
    assert PlaceOf(w, planPath) in FixedPlaces(w, planPath);
  }

  // ----- proving and then verifying -----

  predicate Passes(verified: Result<Verification, Error>) {
    verified.Ok? && verified.value.verdict == Pass
  }

  /** The verification of an index against the plan that the plan file holds. */
  ghost predicate Judged(verified: Result<Verification, Error>, w: World, read: Content -> Plan, planPath: string,
                         fs: FS, index: Index) {
    var current := PlanOf(w, planPath, fs);
    && (verified.Err? <==>
          current.None? || exists i :: 0 <= i < |index.receipts| && Unparseable(ViewOf(w, fs), index.receipts[i]))
    && (verified.Ok? ==>
          (verified.value.verdict == Pass <==> Sound(w, fs, read(current.value), w.sha(current.value), index)))
  }

  method VerifyPlanFile(w: World, read: Content -> Plan, planPath: string, fs: FS, index: Index)
    returns (verified: Result<Verification, Error>)
    ensures Judged(verified, w, read, planPath, fs, index)
  {
    if PlaceOf(w, planPath) !in fs {
      return Err(PlanUnreadable);
    }
    verified := VerifyProofEvidence(w, fs, read(fs[PlaceOf(w, planPath)]), planPath, index);
  }

  /**
   * How the verification of an execution ends, for whatever `later` files it sees. It passes exactly if the execution
   * succeeded, runs are distinct and nothing changed; right after an undisturbed execution it always gives a verdict.
   */
  ghost predicate Agree(executed: Execution, verified: Result<Verification, Error>, w: World, plan: Plan,
                        planPath: string, outDir: string, indexPath: string, start: FS, later: FS, t: Trace)
    requires PlanOf(w, planPath, start).Some?
  {
    var was := PlanOf(w, planPath, start).value;
    var job := JobOf(w, plan, outDir, w.sha(was));
    var good := executed.result.Ok? && DistinctRuns(RunsOf(plan));
    && (NoCollision(w, later, was, t) ==>
          (Passes(verified) <==> good && NothingChanged(w, planPath, start, later, job.files, t)))
    && (later == executed.fs && Undisturbed(w, plan, planPath, outDir, indexPath, job.planSha, t) ==>
          verified.Ok? && (verified.value.verdict == Pass <==> good))
  }

  /**
   * Proves a plan and later verifies the evidence. `read` parses the plan file, and `meanwhile` is whatever happens
   * to the files in between.
   */
  method ProveThenVerify(w: World, read: Content -> Plan, allowed: string -> bool, planPath: string, outDir: string,
                         indexPath: string, continueOnError: bool, fs: FS, meanwhile: FS -> FS)
    returns (executed: Result<Execution, Error>, verified: Result<Verification, Error>, ghost t: Trace)
    ensures executed.Err? <==>
              || PlanOf(w, planPath, fs).None?
              || !AllAllowed(allowed, RunsOf(read(PlanOf(w, planPath, fs).value)))
    ensures executed.Err? ==> verified.Err?
    ensures executed.Ok? ==>
              var was := PlanOf(w, planPath, fs).value;
              var plan, later := read(was), meanwhile(executed.value.fs);
              && Executed(executed.value, w, plan, JobOf(w, plan, outDir, w.sha(was)), fs, indexPath, continueOnError,
                          t)
              && Agree(executed.value, verified, w, plan, planPath, outDir, indexPath, fs, later, t)
  {
    if PlaceOf(w, planPath) !in fs {
      return Err(PlanUnreadable), Err(PlanUnreadable), Trace([], [], []);
    }
    var plan := read(fs[PlaceOf(w, planPath)]);
    executed, t := Execute(w, allowed, plan, planPath, outDir, indexPath, continueOnError, fs);
    if executed.Err? {
      return executed, Err(executed.error), t;
    }
    var later := meanwhile(executed.value.fs);
    verified := VerifyPlanFile(w, read, planPath, later, executed.value.index);
    VerdictAgrees(w, read, plan, planPath, outDir, indexPath, continueOnError, fs, executed.value, t, later, verified);
  }

  lemma VerdictAgrees(w: World, read: Content -> Plan, plan: Plan, planPath: string, outDir: string, indexPath: string,
                      continueOnError: bool, start: FS, e: Execution, t: Trace, later: FS,
                      verified: Result<Verification, Error>)
    requires PlanOf(w, planPath, start).Some? && plan == read(PlanOf(w, planPath, start).value)
    requires var planSha := w.sha(PlanOf(w, planPath, start).value);
             Executed(e, w, plan, JobOf(w, plan, outDir, planSha), start, indexPath, continueOnError, t)
    requires Judged(verified, w, read, planPath, later, e.index)
    ensures Agree(e, verified, w, plan, planPath, outDir, indexPath, start, later, t)
  {
    var was := PlanOf(w, planPath, start).value;
    var job := JobOf(w, plan, outDir, w.sha(was));
    if NoCollision(w, later, was, t) {
      PassesIffUnchanged(w, read, plan, planPath, outDir, indexPath, continueOnError, start, e, t, later, verified,
                         job);
    }
    if later == e.fs && Undisturbed(w, plan, planPath, outDir, indexPath, job.planSha, t) {
      UndisturbedEvidenceSound(w, plan, planPath, outDir, indexPath, job.planSha, continueOnError, start, e, t);
    }
  }

  lemma PassesIffUnchanged(w: World, read: Content -> Plan, plan: Plan, planPath: string, outDir: string,
                           indexPath: string, continueOnError: bool, start: FS, e: Execution, t: Trace, later: FS,
                           verified: Result<Verification, Error>, job: Job)
    requires PlanOf(w, planPath, start).Some? && plan == read(PlanOf(w, planPath, start).value)
    requires job == JobOf(w, plan, outDir, w.sha(PlanOf(w, planPath, start).value))
    requires Executed(e, w, plan, job, start, indexPath, continueOnError, t)
    requires Judged(verified, w, read, planPath, later, e.index)
    requires NoCollision(w, later, PlanOf(w, planPath, start).value, t)
    ensures Passes(verified)
       <==> && e.result.Ok? && DistinctRuns(RunsOf(plan))
            && NothingChanged(w, planPath, start, later, job.files, t)
  {
    if PlanOf(w, planPath, later).Some? {
      var now := read(PlanOf(w, planPath, later).value);
      EvidenceSoundIffSucceeded(w, plan, planPath, outDir, indexPath, continueOnError, start, e, t, later, now);
      if NothingChanged(w, planPath, start, later, job.files, t) {
        ExecutionRecordsTrace(e, w, plan, job, start, indexPath, continueOnError, t);
        RecordedReceiptsParse(e.index, w, job, t, ViewOf(w, later));
      }
    }
  }
}
