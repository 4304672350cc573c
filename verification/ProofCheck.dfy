/** Re-checking an arbitrary evidence index against a plan and the files as they are now. */
module ProofCheck {
  import opened Wrappers
  import opened EvidencePaths
  import opened ProofEvidence
  import opened ProofVerdict
  import opened Sorting
  import opened Text

  /** The digests recomputed from the listed receipts and their logs. */
  datatype Digests = Digests(command: seq<Digest>, log: seq<Digest>, artifact: seq<Digest>)

  datatype Verification = Verification(planDigest: string, manifest: seq<Option<string>>, digests: Digests,
                                       receiptDigests: seq<Digest>, verdict: Verdict, issues: seq<Issue>)

  /** The recorded digest of a path; the first entry counts. */
  function FirstDigest(digests: seq<Digest>, path: string): Option<string> {
    if digests == [] then None
    else if digests[0].path == path then Some(digests[0].sha)
    else FirstDigest(digests[1..], path)
  }

  /** What the verifier finds under a spelling. */
  type View = string -> Option<Content>

  function ViewOf(w: World, fs: FS): View {
    name => Lookup(fs, Denotes(w.cwd, RepoPath(w), name))
  }

  function KeySet(runs: seq<PlannedRun>): set<RunKey> {
    set i | 0 <= i < |runs| :: KeyOf(runs[i])
  }

  function ReceiptKey(receipt: Receipt): RunKey {
    RunKey(receipt.lane, receipt.command)
  }

  /** The receipt's log is where it says and unchanged. */
  predicate LogHolds(sha: Content -> string, view: View, receipt: Receipt) {
    && receipt.logPath.Some? && view(receipt.logPath.value).Some?
    && receipt.logSha == Some(sha(view(receipt.logPath.value).value))
  }

  /** A listed receipt is there, is for a planned run that exited with 0, and every digest is current. */
  ghost predicate ReceiptHolds(sha: Content -> string, view: View, digests: seq<Digest>, expected: set<RunKey>,
                               planSha: string, name: string) {
    var content := view(name);
    && content.Some? && content.value.Document?
    && var receipt := content.value.receipt;
       && ReceiptKey(receipt) in expected
       && FirstDigest(digests, name) == Some(sha(content.value))
       && receipt.commandDigest == Some(sha(Other(receipt.command)))
       && LogHolds(sha, view, receipt)
       && receipt.rulesCovered == [] && receipt.exitCode == 0 && receipt.planDigest == Some(planSha)
  }

  /** The run a listed receipt is for, if the receipt is there. */
  function ListedKey(view: View, name: string): Option<RunKey> {
    var content := view(name);
    if content.Some? && content.value.Document? then Some(ReceiptKey(content.value.receipt)) else None
  }

  /** The fingerprint recorded for the `i`th manifest, if there is one. */
  function Recorded(manifest: seq<Option<string>>, i: nat): Option<string> {
    if i < |manifest| then manifest[i] else None
  }

  ghost predicate HeaderHolds(w: World, fs: FS, plan: Plan, planSha: string, index: Index) {
    && IdentityHolds(RunsOf(plan), plan.changedPaths, planSha, index)
    && ManifestsHold(index.manifest, Fingerprints(w, fs)) && index.coverage == []
  }

  ghost predicate IdentityHolds(runs: seq<PlannedRun>, changedPaths: seq<string>, planSha: string, index: Index) {
    && index.planDigest == planSha && index.changedPaths == changedPaths && index.commands == ProofPlan.Commands(runs)
    && runs != [] && DistinctRuns(runs)
  }

  ghost predicate ManifestsHold(recorded: seq<Option<string>>, current: seq<Option<string>>) {
    forall i | 0 <= i < |current| :: Recorded(recorded, i) == current[i]
  }

  /** Listed receipts are named once each, hold, and are for different runs. */
  ghost predicate ReceiptsHold(sha: Content -> string, view: View, digests: seq<Digest>, expected: set<RunKey>,
                               planSha: string, names: seq<string>) {
    && NoDup(names)
    && (forall i | 0 <= i < |names| :: ReceiptHolds(sha, view, digests, expected, planSha, names[i]))
    && (forall i, j | 0 <= i < j < |names| :: ListedKey(view, names[i]) != ListedKey(view, names[j]))
  }

  ghost predicate Observes(view: View, names: seq<string>, key: RunKey) {
    exists i :: 0 <= i < |names| && ListedKey(view, names[i]) == Some(key)
  }

  /** What evidence has to say about a plan. */
  ghost predicate Sound(w: World, fs: FS, plan: Plan, planSha: string, index: Index) {
    var expected := KeySet(RunsOf(plan));
    && HeaderHolds(w, fs, plan, planSha, index)
    && ReceiptsHold(w.sha, ViewOf(w, fs), index.receiptDigests, expected, planSha, index.receipts)
    && forall key | key in expected :: Observes(ViewOf(w, fs), index.receipts, key)
  }

  predicate Unparseable(view: View, name: string) {
    view(name).Some? && !view(name).value.Document?
  }

  // ----- what is wrong with evidence -----

  /** The plan or the runs it names are not the ones the evidence is for. */
  ghost predicate IdentityWrong(issue: Issue, runs: seq<PlannedRun>, changedPaths: seq<string>, planSha: string,
                                index: Index) {
    match issue
    case PlanDigestMismatch(evidence, current) => evidence == index.planDigest && current == planSha != evidence
    case ChangedPathsDiffer => index.changedPaths != changedPaths
    case NoUniqueInventory => runs == [] || !DistinctRuns(runs)
    case CommandInventoryMismatch => index.commands != ProofPlan.Commands(runs)
    case _ => false
  }

  ghost predicate ManifestWrong(issue: Issue, manifests: seq<ManifestFile>, recorded: seq<Option<string>>,
                                current: seq<Option<string>>)
    requires |current| == |manifests|
  {
    exists i ::
      && 0 <= i < |manifests| && Recorded(recorded, i) != current[i]
      && issue == ManifestMismatch(manifests[i].name, Recorded(recorded, i), current[i])
  }

  ghost predicate HeaderWrong(issue: Issue, w: World, fs: FS, plan: Plan, planSha: string, index: Index) {
    || IdentityWrong(issue, RunsOf(plan), plan.changedPaths, planSha, index)
    || ManifestWrong(issue, w.manifests, index.manifest, Fingerprints(w, fs))
    || (issue == UnverifiedCoverage && index.coverage != [])
  }

  /** The receipt's run is not planned, or the receipt or its command is not what was recorded. */
  ghost predicate OriginWrong(issue: Issue, digests: seq<Digest>, expected: set<RunKey>, name: string, actual: string,
                              receipt: Receipt, command: string) {
    match issue
    case UnexpectedRun(lane, command) =>
      RunKey(lane, command) == ReceiptKey(receipt) && ReceiptKey(receipt) !in expected
    case MissingReceiptDigest(path) => path == name && FirstDigest(digests, name).None?
    case ReceiptDigestMismatch(path, evidence, now) =>
      path == name && FirstDigest(digests, name) == Some(evidence) && now == actual != evidence
    case CommandDigestMismatch(lane) => lane == receipt.lane && receipt.commandDigest != Some(command)
    case _ => false
  }

  /** The receipt's log is missing or has changed. */
  ghost predicate LogWrong(issue: Issue, sha: Content -> string, view: View, name: string, receipt: Receipt) {
    match issue
    case MissingLogPath(path) => path == name && receipt.logPath.None?
    case MissingLog(path) => receipt.logPath == Some(path) && view(path).None?
    case LogDigestMismatch(path) =>
      receipt.logPath == Some(path) && view(path).Some? && receipt.logSha != Some(sha(view(path).value))
    case _ => false
  }

  /** The run failed, claims rules, or was for another plan. */
  ghost predicate OutcomeWrong(issue: Issue, planSha: string, name: string, receipt: Receipt) {
    match issue
    case UnverifiedReceiptCoverage(path) => path == name && receipt.rulesCovered != []
    case ExitStatus(path, code) => path == name && receipt.exitCode != 0 && code == Integer(receipt.exitCode)
    case ReceiptPlanMismatch(path) => path == name && receipt.planDigest != Some(planSha)
    case _ => false
  }

  /** What a receipt that is there says that it should not. */
  ghost predicate ReceiptWrong(issue: Issue, sha: Content -> string, view: View, digests: seq<Digest>,
                               expected: set<RunKey>, planSha: string, name: string)
    requires ListedKey(view, name).Some?
  {
    var receipt := view(name).value.receipt;
    || OriginWrong(issue, digests, expected, name, sha(view(name).value), receipt, sha(Other(receipt.command)))
    || LogWrong(issue, sha, view, name, receipt)
    || OutcomeWrong(issue, planSha, name, receipt)
  }

  /** What is wrong with the `i`th listed receipt, given the ones before it. */
  ghost predicate ListedWrong(issue: Issue, sha: Content -> string, view: View, digests: seq<Digest>,
                              expected: set<RunKey>, planSha: string, names: seq<string>, i: nat)
    requires i < |names|
  {
    NameWrong(issue, sha, view, digests, expected, planSha, names[i], names[i] in names[..i],
              ListedKey(view, names[i]).Some? && Observes(view, names[..i], ListedKey(view, names[i]).value))
  }

  /** `again` if the name was listed before, `seen` if its run was. */
  ghost predicate NameWrong(issue: Issue, sha: Content -> string, view: View, digests: seq<Digest>,
                            expected: set<RunKey>, planSha: string, name: string, again: bool, seen: bool) {
    || (again && issue == DuplicateReceipt(name))
    || match ListedKey(view, name)
       case None => issue == MissingReceipt(name)
       case Some(_) => ReceiptWrong(issue, sha, view, digests, expected, planSha, name)
                       || (seen && issue == DuplicateRun(name))
  }

  ghost predicate RunMissing(issue: Issue, expected: set<RunKey>, observed: set<RunKey>) {
    issue.MissingRun? && RunKey(issue.lane, issue.command) in expected - observed
  }

  ghost predicate SomeListedWrong(issue: Issue, sha: Content -> string, view: View, digests: seq<Digest>,
                                  expected: set<RunKey>, planSha: string, names: seq<string>) {
    exists i :: 0 <= i < |names| && ListedWrong(issue, sha, view, digests, expected, planSha, names, i)
  }

  /** An issue belongs to evidence exactly if this says so. */
  ghost predicate Wrong(issue: Issue, w: World, fs: FS, plan: Plan, planSha: string, index: Index) {
    var runs := RunsOf(plan);
    || HeaderWrong(issue, w, fs, plan, planSha, index)
    || SomeListedWrong(issue, w.sha, ViewOf(w, fs), index.receiptDigests, KeySet(runs), planSha, index.receipts)
    || (issue.MissingRun? && RunKey(issue.lane, issue.command) in KeySet(runs)
        && !Observes(ViewOf(w, fs), index.receipts, RunKey(issue.lane, issue.command)))
  }

  // ----- recomputed digests -----

  function AddDigests(d: Digests, sha: Content -> string, view: View, name: string): Digests {
    if ListedKey(view, name).None? then d
    else
      var receipt := view(name).value.receipt;
      var command := Digest(receipt.lane + "::" + receipt.command, sha(Other(receipt.command)));
      var artifact := Digest(name, sha(view(name).value));
      var log := if receipt.logPath.Some? && view(receipt.logPath.value).Some?
                 then [Digest(receipt.logPath.value, sha(view(receipt.logPath.value).value))] else [];
      Digests(d.command + [command], d.log + log, d.artifact + [artifact] + log)
  }

  function DigestsOf(sha: Content -> string, view: View, names: seq<string>): Digests {
    if names == [] then Digests([], [], [])
    else AddDigests(DigestsOf(sha, view, names[..|names| - 1]), sha, view, names[|names| - 1])
  }

  /** What is reported where nothing could be recomputed: the evidence's own list. */
  function OrRecorded(recomputed: seq<Digest>, recorded: seq<Digest>): seq<Digest> {
    if recomputed == [] then recorded else recomputed
  }

  function ReportedDigests(d: Digests, index: Index): Digests {
    Digests(OrRecorded(d.command, index.commandDigests), OrRecorded(d.log, index.logDigests),
            OrRecorded(d.artifact, index.artifactDigests))
  }

  // ----- the check -----

  ghost predicate Verifies(v: Verification, w: World, fs: FS, plan: Plan, planSha: string, index: Index) {
    && (forall issue :: issue in v.issues <==> Wrong(issue, w, fs, plan, planSha, index))
    && v.verdict == ClassifyVerdict(Texts(v.issues))
    && v.planDigest == planSha && v.manifest == Fingerprints(w, fs) && v.receiptDigests == index.receiptDigests
    && v.digests == ReportedDigests(DigestsOf(w.sha, ViewOf(w, fs), index.receipts), index)
  }

  /**
   * Reports exactly what is wrong, so nothing for sound evidence only. The verdict is at least as bad as the kind of
   * every issue. The check itself fails when the plan or a listed receipt cannot be read.
   */
  method VerifyProofEvidence(w: World, fs: FS, plan: Plan, planPath: string, index: Index)
    returns (r: Result<Verification, Error>)
    ensures r.Err? <==> || PlaceOf(w, planPath) !in fs
                        || exists i :: 0 <= i < |index.receipts| && Unparseable(ViewOf(w, fs), index.receipts[i])
    ensures r.Ok? ==>
              var planSha := w.sha(fs[PlaceOf(w, planPath)]);
              && Verifies(r.value, w, fs, plan, planSha, index)
              && (r.value.verdict == Pass <==> Sound(w, fs, plan, planSha, index))
              && forall issue | issue in r.value.issues :: Badness(r.value.verdict) >= Badness(Floor(issue))
  {
    if PlaceOf(w, planPath) !in fs {
      return Err(PlanUnreadable);
    }
    r := VerifyAgainst(w, fs, plan, w.sha(fs[PlaceOf(w, planPath)]), index);
  }

  method VerifyAgainst(w: World, fs: FS, plan: Plan, planSha: string, index: Index)
    returns (r: Result<Verification, Error>)
    ensures r.Err? <==> exists i :: 0 <= i < |index.receipts| && Unparseable(ViewOf(w, fs), index.receipts[i])
    ensures r.Ok? ==>
              && Verifies(r.value, w, fs, plan, planSha, index)
              && (r.value.verdict == Pass <==> Sound(w, fs, plan, planSha, index))
              && forall issue | issue in r.value.issues :: Badness(r.value.verdict) >= Badness(Floor(issue))
  {
    var expected := KeySet(RunsOf(plan));
    var header := HeaderIssues(w, fs, plan, planSha, index);
    var receipts := ReceiptsIssues(w.sha, ViewOf(w, fs), index.receiptDigests, expected, planSha, index.receipts);
    if receipts.Err? {
      return Err(receipts.error);
    }
    var o := receipts.value;
    var missing := MissingRuns(expected, o.observed);
    var issues := header + o.issues + missing;
    AllIssues(w, fs, plan, planSha, index, header, o, missing, issues);
    PassIffNoIssues(issues);
    FloorsHold(issues);
    r := Ok(Report(w, fs, planSha, index, o.digests, issues));
  }

  function Report(w: World, fs: FS, planSha: string, index: Index, recomputed: Digests, issues: seq<Issue>)
    : Verification
  {
    Verification(planSha, Fingerprints(w, fs), ReportedDigests(recomputed, index), index.receiptDigests,
                 ClassifyVerdict(Texts(issues)), issues)
  }

  /** The three groups of issues are together what is wrong. */
  lemma AllIssues(w: World, fs: FS, plan: Plan, planSha: string, index: Index, header: seq<Issue>, o: Observation,
                  missing: seq<Issue>, issues: seq<Issue>)
    requires issues == header + o.issues + missing
    requires header == [] <==> HeaderHolds(w, fs, plan, planSha, index)
    requires forall issue :: issue in header <==> HeaderWrong(issue, w, fs, plan, planSha, index)
    requires Observed(o, w.sha, ViewOf(w, fs), index.receiptDigests, KeySet(RunsOf(plan)), planSha, index.receipts)
    requires missing == [] <==> KeySet(RunsOf(plan)) <= o.observed
    requires forall issue :: issue in missing <==> RunMissing(issue, KeySet(RunsOf(plan)), o.observed)
    ensures forall issue :: issue in issues <==> Wrong(issue, w, fs, plan, planSha, index)
    ensures issues == [] <==> Sound(w, fs, plan, planSha, index)
  {
    JoinedIssues(header, o.issues, missing, issues);
    forall issue ensures issue in issues <==> Wrong(issue, w, fs, plan, planSha, index) {
      assert issue in issues <==> issue in header || issue in o.issues || issue in missing;
    }
  }

  lemma FloorHolds(issues: seq<Issue>, issue: Issue)
    requires issue in issues
    ensures Badness(ClassifyVerdict(Texts(issues))) >= Badness(Floor(issue))
  {
    var i :| 0 <= i < |issues| && issues[i] == issue;
    VerdictRespectsFloors(issues, i);
  }

  lemma FloorsHold(issues: seq<Issue>)
    ensures forall issue | issue in issues :: Badness(ClassifyVerdict(Texts(issues))) >= Badness(Floor(issue))
  {
    forall issue | issue in issues ensures Badness(ClassifyVerdict(Texts(issues))) >= Badness(Floor(issue)) {
      FloorHolds(issues, issue);
    }
  }

  lemma JoinedIssues(a: seq<Issue>, b: seq<Issue>, c: seq<Issue>, all: seq<Issue>)
    requires all == a + b + c
    ensures all == [] <==> a == [] && b == [] && c == []
    ensures forall issue :: issue in all <==> issue in a || issue in b || issue in c
  {
  }

  method HeaderIssues(w: World, fs: FS, plan: Plan, planSha: string, index: Index) returns (issues: seq<Issue>)
    ensures issues == [] <==> HeaderHolds(w, fs, plan, planSha, index)
    ensures forall issue :: issue in issues <==> HeaderWrong(issue, w, fs, plan, planSha, index)
  {
    var identity := IdentityIssues(RunsOf(plan), plan.changedPaths, planSha, index);
    var manifest := ManifestIssues(w.manifests, index.manifest, Fingerprints(w, fs));
    var coverage := When(index.coverage != [], UnverifiedCoverage);
    issues := identity + manifest + coverage;
    JoinedIssues(identity, manifest, coverage, issues);
  }

  method IdentityIssues(runs: seq<PlannedRun>, changedPaths: seq<string>, planSha: string, index: Index)
    returns (issues: seq<Issue>)
    ensures issues == [] <==> IdentityHolds(runs, changedPaths, planSha, index)
    ensures forall issue :: issue in issues <==> IdentityWrong(issue, runs, changedPaths, planSha, index)
  {
    var unique := UniqueInventory(runs);
    var first := When(index.planDigest != planSha, PlanDigestMismatch(index.planDigest, planSha))
               + When(index.changedPaths != changedPaths, ChangedPathsDiffer);
    var second := When(!unique, NoUniqueInventory)
                + When(index.commands != ProofPlan.Commands(runs), CommandInventoryMismatch);
    issues := first + second;
    assert |issues| == |first| + |second|;
  }

  /** The runs' keys are counted as a set and compared with the number of runs. */
  method UniqueInventory(runs: seq<PlannedRun>) returns (unique: bool)
    ensures unique <==> runs != [] && DistinctRuns(runs)
  {
    var expected := KeySet(runs);
    unique := expected != {} && |expected| == |runs|;
    var keys := Keys(runs);
    DistinctCount(keys);
    assert expected == set key | key in keys by {
      forall key ensures key in expected <==> key in keys {
        if key in expected {
          var i :| 0 <= i < |runs| && KeyOf(runs[i]) == key;
          assert keys[i] == key;
        }
      }
    }
    assert runs != [] ==> KeyOf(runs[0]) in expected;
  }

  method ManifestIssues(manifests: seq<ManifestFile>, recorded: seq<Option<string>>, current: seq<Option<string>>)
    returns (issues: seq<Issue>)
    requires |current| == |manifests|
    ensures issues == [] <==> ManifestsHold(recorded, current)
    ensures forall issue :: issue in issues <==> ManifestWrong(issue, manifests, recorded, current)
  {
    issues := [];
    for i := 0 to |manifests|
      invariant issues == [] <==> forall j | 0 <= j < i :: Recorded(recorded, j) == current[j]
      invariant forall issue :: issue in issues <==>
                  exists j ::
                    && 0 <= j < i && Recorded(recorded, j) != current[j]
                    && issue == ManifestMismatch(manifests[j].name, Recorded(recorded, j), current[j])
    {
      var was, now := Recorded(recorded, i), current[i];
      if was != now {
        issues := issues + [ManifestMismatch(manifests[i].name, was, now)];
      }
    }
  }

  datatype Observation = Observation(issues: seq<Issue>, observed: set<RunKey>, names: set<string>, digests: Digests)

  method ReceiptsIssues(sha: Content -> string, view: View, digests: seq<Digest>, expected: set<RunKey>,
                        planSha: string, names: seq<string>)
    returns (r: Result<Observation, Error>)
    ensures r.Err? <==> exists i :: 0 <= i < |names| && Unparseable(view, names[i])
    ensures r.Ok? ==> Observed(r.value, sha, view, digests, expected, planSha, names)
  {
    var o := Observation([], {}, {}, Digests([], [], []));
    for i := 0 to |names|
      invariant forall j | 0 <= j < i :: !Unparseable(view, names[j])
      invariant Observed(o, sha, view, digests, expected, planSha, names[..i])
    {
      if Unparseable(view, names[i]) {
        return Err(BadReceipt(names[i]));
      }
      o := ObserveOne(sha, view, digests, expected, planSha, names[..i], names[i], names[..i + 1], o);
    }
    assert names[..|names|] == names;
    r := Ok(o);
  }

  /** The issues, runs and digests of the names so far, and the names themselves. */
  ghost predicate Observed(o: Observation, sha: Content -> string, view: View, digests: seq<Digest>,
                           expected: set<RunKey>, planSha: string, names: seq<string>)
  {
    && (o.issues == [] <==> ReceiptsHold(sha, view, digests, expected, planSha, names))
    && (forall issue :: issue in o.issues <==> SomeListedWrong(issue, sha, view, digests, expected, planSha, names))
    && (forall key :: key in o.observed <==> Observes(view, names, key))
    && (forall name :: name in o.names <==> name in names)
    && o.digests == DigestsOf(sha, view, names)
  }

  /** One turn of the loop over the listed receipts. */
  method ObserveOne(sha: Content -> string, view: View, digests: seq<Digest>, expected: set<RunKey>, planSha: string,
                    ghost names: seq<string>, name: string, ghost upTo: seq<string>, o: Observation)
    returns (next: Observation)
    requires upTo == names + [name] && !Unparseable(view, name)
    requires Observed(o, sha, view, digests, expected, planSha, names)
    ensures Observed(next, sha, view, digests, expected, planSha, upTo)
  {
    var found, key := ListedIssues(sha, view, digests, expected, planSha, name, name in o.names, o.observed);
    OneMoreReceipt(sha, view, digests, expected, planSha, names, name, upTo);
    OneMoreObserved(view, names, name, upTo);
    ghost var seen := ListedKey(view, name).Some? && Observes(view, names, ListedKey(view, name).value);
    OneMoreWrong(sha, view, digests, expected, planSha, names, name, upTo, name in names, seen);
    assert upTo[..|names|] == names;
    next := Observation(o.issues + found, o.observed + (if key.Some? then {key.value} else {}), o.names + {name},
                        AddDigests(o.digests, sha, view, name));
  }

  lemma OneMoreWrong(sha: Content -> string, view: View, digests: seq<Digest>, expected: set<RunKey>, planSha: string,
                     names: seq<string>, name: string, upTo: seq<string>, again: bool, seen: bool)
    requires upTo == names + [name] && again == (name in names)
    requires seen == (ListedKey(view, name).Some? && Observes(view, names, ListedKey(view, name).value))
    ensures forall issue ::
              SomeListedWrong(issue, sha, view, digests, expected, planSha, upTo)
              <==> || SomeListedWrong(issue, sha, view, digests, expected, planSha, names)
                   || NameWrong(issue, sha, view, digests, expected, planSha, name, again, seen)
  {
    var n := |names|;
    assert upTo[..n] == names && upTo[n] == name;
    forall issue
      ensures SomeListedWrong(issue, sha, view, digests, expected, planSha, upTo)
         <==> || SomeListedWrong(issue, sha, view, digests, expected, planSha, names)
              || NameWrong(issue, sha, view, digests, expected, planSha, name, again, seen)
    {
      forall i | 0 <= i < n
        ensures ListedWrong(issue, sha, view, digests, expected, planSha, upTo, i)
           <==> ListedWrong(issue, sha, view, digests, expected, planSha, names, i)
      {
        assert upTo[..i] == names[..i] && upTo[i] == names[i];
      }
      assert ListedWrong(issue, sha, view, digests, expected, planSha, upTo, n)
        <==> NameWrong(issue, sha, view, digests, expected, planSha, name, again, seen);
    }
  }

  method ListedIssues(sha: Content -> string, view: View, digests: seq<Digest>, expected: set<RunKey>,
                      planSha: string, name: string, again: bool, observed: set<RunKey>)
    returns (issues: seq<Issue>, key: Option<RunKey>)
    requires !Unparseable(view, name)
    ensures key == ListedKey(view, name)
    ensures issues == [] <==>
              && !again && ReceiptHolds(sha, view, digests, expected, planSha, name)
              && key.Some? && key.value !in observed
    ensures forall issue :: issue in issues <==>
              NameWrong(issue, sha, view, digests, expected, planSha, name, again, key.Some? && key.value in observed)
  {
    key := ListedKey(view, name);
    var duplicate := When(again, DuplicateReceipt(name));
    var own, rest := [MissingReceipt(name)], [];
    if key.Some? {
      own := ReceiptIssues(sha, view, digests, expected, planSha, name);
      rest := When(key.value in observed, DuplicateRun(name));
    }
    issues := duplicate + own + rest;
    JoinedIssues(duplicate, own, rest, issues);
  }

  /** The complaints about a receipt that is there. */
  method ReceiptIssues(sha: Content -> string, view: View, digests: seq<Digest>, expected: set<RunKey>,
                       planSha: string, name: string)
    returns (issues: seq<Issue>)
    requires ListedKey(view, name).Some?
    ensures issues == [] <==> ReceiptHolds(sha, view, digests, expected, planSha, name)
    ensures forall issue :: issue in issues <==> ReceiptWrong(issue, sha, view, digests, expected, planSha, name)
  {
    var content := view(name).value;
    var receipt := content.receipt;
    var origin := OriginIssues(digests, expected, name, sha(content), receipt, sha(Other(receipt.command)));
    var log := LogIssues(sha, view, name, receipt);
    var outcome := OutcomeIssues(planSha, name, receipt);
    issues := origin + log + outcome;
    JoinedIssues(origin, log, outcome, issues);
  }

  method OriginIssues(digests: seq<Digest>, expected: set<RunKey>, name: string, actual: string, receipt: Receipt,
                      command: string)
    returns (issues: seq<Issue>)
    ensures issues == [] <==>
              && ReceiptKey(receipt) in expected && FirstDigest(digests, name) == Some(actual)
              && receipt.commandDigest == Some(command)
    ensures forall issue :: issue in issues <==> OriginWrong(issue, digests, expected, name, actual, receipt, command)
  {
    var known := When(ReceiptKey(receipt) !in expected, UnexpectedRun(receipt.lane, receipt.command));
    var digest := DigestIssues(digests, name, actual);
    var ran := When(receipt.commandDigest != Some(command), CommandDigestMismatch(receipt.lane));
    issues := known + digest + ran;
    JoinedIssues(known, digest, ran, issues);
  }

  method OutcomeIssues(planSha: string, name: string, receipt: Receipt) returns (issues: seq<Issue>)
    ensures issues == [] <==>
              receipt.rulesCovered == [] && receipt.exitCode == 0 && receipt.planDigest == Some(planSha)
    ensures forall issue :: issue in issues <==> OutcomeWrong(issue, planSha, name, receipt)
  {
    var covers := When(receipt.rulesCovered != [], UnverifiedReceiptCoverage(name));
    var failed := When(receipt.exitCode != 0, ExitStatus(name, Integer(receipt.exitCode)));
    var stale := When(receipt.planDigest != Some(planSha), ReceiptPlanMismatch(name));
    issues := covers + failed + stale;
    JoinedIssues(covers, failed, stale, issues);
  }

  method DigestIssues(digests: seq<Digest>, name: string, actual: string) returns (issues: seq<Issue>)
    ensures issues == match FirstDigest(digests, name)
                      case None => [MissingReceiptDigest(name)]
                      case Some(recorded) => When(recorded != actual, ReceiptDigestMismatch(name, recorded, actual))
  {
    var recorded := FirstDigest(digests, name);
    if recorded.None? {
      issues := [MissingReceiptDigest(name)];
    } else {
      issues := When(recorded.value != actual, ReceiptDigestMismatch(name, recorded.value, actual));
    }
  }

  method LogIssues(sha: Content -> string, view: View, name: string, receipt: Receipt) returns (issues: seq<Issue>)
    ensures issues == [] <==> LogHolds(sha, view, receipt)
    ensures forall issue :: issue in issues <==> LogWrong(issue, sha, view, name, receipt)
  {
    if receipt.logPath.None? {
      return [MissingLogPath(name)];
    }
    var log := view(receipt.logPath.value);
    if log.None? {
      return [MissingLog(receipt.logPath.value)];
    }
    issues := When(receipt.logSha != Some(sha(log.value)), LogDigestMismatch(receipt.logPath.value));
  }

  /** Every planned run that no receipt is for. */
  method MissingRuns(expected: set<RunKey>, observed: set<RunKey>) returns (issues: seq<Issue>)
    ensures issues == [] <==> expected <= observed
    ensures forall issue :: issue in issues <==> RunMissing(issue, expected, observed)
  {
    issues := [];
    var rest := expected;
    while rest != {}
      invariant rest <= expected
      invariant issues == [] <==> expected - rest <= observed
      invariant forall issue :: issue in issues <==> RunMissing(issue, expected - rest, observed)
      decreases |rest|
    {
      var key :| key in rest;
      if key !in observed {
        issues := issues + [MissingRun(key.lane, key.command)];
      }
      rest := rest - {key};
    }
    assert expected - rest == expected;
  }

  lemma OneMoreObserved(view: View, names: seq<string>, name: string, upTo: seq<string>)
    requires upTo == names + [name]
    ensures forall key ::
              Observes(view, upTo, key) <==> Observes(view, names, key) || ListedKey(view, name) == Some(key)
  {
    forall key
      ensures Observes(view, upTo, key) <==> Observes(view, names, key) || ListedKey(view, name) == Some(key)
    {
      if Observes(view, names, key) {
        var i :| 0 <= i < |names| && ListedKey(view, names[i]) == Some(key);
        assert upTo[i] == names[i];
      }
      assert upTo[|names|] == name;
    }
  }

  /** A receipt can be added to those that hold: its name and its run are new and it holds itself. */
  ghost predicate Addable(sha: Content -> string, view: View, digests: seq<Digest>, expected: set<RunKey>,
                          planSha: string, names: seq<string>, name: string) {
    && name !in names && ReceiptHolds(sha, view, digests, expected, planSha, name)
    && ListedKey(view, name).Some? && !Observes(view, names, ListedKey(view, name).value)
  }

  lemma OneMoreReceipt(sha: Content -> string, view: View, digests: seq<Digest>, expected: set<RunKey>,
                       planSha: string, names: seq<string>, name: string, upTo: seq<string>)
    requires upTo == names + [name]
    ensures ReceiptsHold(sha, view, digests, expected, planSha, upTo)
       <==> && ReceiptsHold(sha, view, digests, expected, planSha, names)
            && Addable(sha, view, digests, expected, planSha, names, name)
  {
    if ReceiptsHold(sha, view, digests, expected, planSha, upTo) {
      FewerReceiptsHold(sha, view, digests, expected, planSha, names, name, upTo);
    }
    if ReceiptsHold(sha, view, digests, expected, planSha, names)
       && Addable(sha, view, digests, expected, planSha, names, name) {
      MoreReceiptsHold(sha, view, digests, expected, planSha, names, name, upTo);
    }
  }

  lemma FewerReceiptsHold(sha: Content -> string, view: View, digests: seq<Digest>, expected: set<RunKey>,
                          planSha: string, names: seq<string>, name: string, upTo: seq<string>)
    requires upTo == names + [name] && ReceiptsHold(sha, view, digests, expected, planSha, upTo)
    ensures ReceiptsHold(sha, view, digests, expected, planSha, names)
    ensures Addable(sha, view, digests, expected, planSha, names, name)
  {
    var n := |names|;
    assert upTo[n] == name && ReceiptHolds(sha, view, digests, expected, planSha, upTo[n]);
    forall i | 0 <= i < n
      ensures names[i] != name && ReceiptHolds(sha, view, digests, expected, planSha, names[i])
      ensures ListedKey(view, names[i]) != ListedKey(view, name)
    {
      assert upTo[i] == names[i] && upTo[i] != upTo[n];
    }
    forall i, j | 0 <= i < j < n
      ensures names[i] != names[j] && ListedKey(view, names[i]) != ListedKey(view, names[j])
    {
      assert upTo[i] == names[i] && upTo[j] == names[j];
    }
  }

  lemma MoreReceiptsHold(sha: Content -> string, view: View, digests: seq<Digest>, expected: set<RunKey>,
                         planSha: string, names: seq<string>, name: string, upTo: seq<string>)
    requires upTo == names + [name] && ReceiptsHold(sha, view, digests, expected, planSha, names)
    requires Addable(sha, view, digests, expected, planSha, names, name)
    ensures ReceiptsHold(sha, view, digests, expected, planSha, upTo)
  {
    var n := |names|;
    forall i, j | 0 <= i < j < n + 1
      ensures upTo[i] != upTo[j] && ListedKey(view, upTo[i]) != ListedKey(view, upTo[j])
    {
      assert upTo[i] == names[i];
    }
    forall i | 0 <= i < n + 1 ensures ReceiptHolds(sha, view, digests, expected, planSha, upTo[i]) {
      assert i < n ==> upTo[i] == names[i];
    }
  }
}
