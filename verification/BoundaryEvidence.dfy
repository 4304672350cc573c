/** What an audited boundary's evidence must say, and the status that follows. */
module BoundaryEvidence {
  import opened Wrappers
  import opened Text
  import opened Sorting
  import opened Boundaries

  datatype EvidenceFile = EvidenceFile(path: string, sha256: string)
  datatype Check = Check(id: string, status: string)
  datatype Evidence = Evidence(boundaryId: string, classification: string, runtimeLanguage: string, paths: seq<string>,
                               files: seq<EvidenceFile>, checks: seq<Check>, passed: bool, failedCount: nat)

  /** What became of one required evidence artifact. */
  datatype Load = Missing | Invalid(error: string) | Loaded(evidence: Evidence)

  datatype Status = Unsupported | Unusable | MissingEvidence | Failed | Passed

  function NormalizeSha256(value: string): string {
    if "sha256:" <= value then value else "sha256:" + value
  }

  /** The hash recorded for a path; a later entry replaces an earlier one. */
  function RecordedSha(files: seq<EvidenceFile>, path: string): Option<string> {
    if files == [] then None
    else
      var last := files[|files| - 1];
      if last.path == path then Some(last.sha256) else RecordedSha(files[..|files| - 1], path)
  }

  function FirstCheck(checks: seq<Check>, id: string): Option<Check> {
    if checks == [] then None else if checks[0].id == id then Some(checks[0]) else FirstCheck(checks[1..], id)
  }

  predicate HasCurrentSha(recorded: string, file: string, actual: string -> Option<string>) {
    actual(file).Some? && NormalizeSha256(recorded) == actual(file).value
  }

  predicate FileVouched(evidence: Evidence, file: string, actual: string -> Option<string>) {
    var recorded := RecordedSha(evidence.files, file);
    recorded.Some? && HasCurrentSha(recorded.value, file, actual)
  }

  /** A hash recorded for the file, if there is one, is its current one. */
  predicate FileUncontested(evidence: Evidence, file: string, actual: string -> Option<string>) {
    RecordedSha(evidence.files, file).Some? ==> FileVouched(evidence, file, actual)
  }

  predicate CheckPassed(evidence: Evidence, id: string) {
    var check := FirstCheck(evidence.checks, id);
    check.Some? && (check.value.status == "passed" || check.value.status == "pass")
  }

  predicate CheckUncontested(evidence: Evidence, id: string) {
    FirstCheck(evidence.checks, id).Some? ==> CheckPassed(evidence, id)
  }

  predicate SameIdentity(work: Work, evidence: Evidence) {
    && evidence.boundaryId == work.entry.id && evidence.classification == work.entry.classification
    && evidence.runtimeLanguage == work.entry.runtimeLanguage && evidence.paths == work.entry.paths
  }

  ghost predicate NothingOutside(work: Work, evidence: Evidence) {
    forall i | 0 <= i < |evidence.files| :: evidence.files[i].path in work.coveredFiles
  }

  /**
   * The evidence is about this boundary, lists exactly its files with their current hashes, and reports
   * every required check and the whole as passed.
   */
  ghost predicate Vouches(work: Work, evidence: Evidence, actual: string -> Option<string>) {
    && SameIdentity(work, evidence)
    && (forall file | file in work.coveredFiles :: FileVouched(evidence, file, actual))
    && NothingOutside(work, evidence)
    && (forall i | 0 <= i < |work.entry.requiredChecks| :: CheckPassed(evidence, work.entry.requiredChecks[i]))
    && evidence.passed && evidence.failedCount == 0
  }

  /** The evidence has something to say about every covered file and every required check. */
  ghost predicate SpeaksOfAll(work: Work, evidence: Evidence) {
    && (forall file | file in work.coveredFiles :: RecordedSha(evidence.files, file).Some?)
    && (forall i | 0 <= i < |work.entry.requiredChecks| ::
          FirstCheck(evidence.checks, work.entry.requiredChecks[i]).Some?)
  }

  /** Nothing that the evidence says is wrong, out of date or a failure. */
  ghost predicate Uncontested(work: Work, evidence: Evidence, actual: string -> Option<string>) {
    && SameIdentity(work, evidence)
    && (forall file | file in work.coveredFiles :: FileUncontested(evidence, file, actual))
    && NothingOutside(work, evidence)
    && (forall i | 0 <= i < |work.entry.requiredChecks| :: CheckUncontested(evidence, work.entry.requiredChecks[i]))
    && evidence.passed && evidence.failedCount == 0
  }

  /** What the evidence leaves out is `missing`, what it gets wrong is `failed`; without either it vouches. */
  method ValidateEvidence(work: Work, evidence: Evidence, actual: string -> Option<string>)
    returns (missing: seq<string>, failed: seq<string>)
    ensures missing == [] <==> SpeaksOfAll(work, evidence)
    ensures failed == [] <==> Uncontested(work, evidence, actual)
    ensures missing == [] && failed == [] <==> Vouches(work, evidence, actual)
  {
    var identity := IdentityProblems(work, evidence);
    var missingFiles, failedFiles := FileProblems(work, evidence, actual);
    var outside := OutsideProblems(work, evidence);
    var missingChecks, failedChecks := CheckProblems(work, evidence);
    var summary := When(!evidence.passed || evidence.failedCount > 0, "summary: evidence reports failures");
    missing := missingFiles + missingChecks;
    failed := identity + failedFiles + outside + failedChecks + summary;
    assert |failed| == |identity| + |failedFiles| + |outside| + |failedChecks| + |summary|;
    VouchesInParts(work, evidence, actual);
  }

  lemma VouchesInParts(work: Work, evidence: Evidence, actual: string -> Option<string>)
    ensures Vouches(work, evidence, actual) <==> SpeaksOfAll(work, evidence) && Uncontested(work, evidence, actual)
  {
    if SpeaksOfAll(work, evidence) && Uncontested(work, evidence, actual) {
      forall file | file in work.coveredFiles ensures FileVouched(evidence, file, actual) {
        assert FileUncontested(evidence, file, actual);
      }
      forall i | 0 <= i < |work.entry.requiredChecks|
        ensures CheckPassed(evidence, work.entry.requiredChecks[i])
      {
        assert CheckUncontested(evidence, work.entry.requiredChecks[i]);
      }
    }
  }

  method IdentityProblems(work: Work, evidence: Evidence) returns (failed: seq<string>)
    ensures failed == [] <==> SameIdentity(work, evidence)
  {
    var named := When(evidence.boundaryId != work.entry.id, "boundary-id-match: evidence differs from manifest");
    var classed := When(evidence.classification != work.entry.classification,
                        "classification-match: evidence classification differs from manifest");
    var hosted := When(evidence.runtimeLanguage != work.entry.runtimeLanguage,
                       "runtime-language-match: evidence runtime language differs from manifest");
    var placed := When(evidence.paths != work.entry.paths, "paths-match: evidence paths differ from manifest");
    failed := named + classed + hosted + placed;
    assert |failed| == |named| + |classed| + |hosted| + |placed|;
  }

  method FileProblems(work: Work, evidence: Evidence, actual: string -> Option<string>)
    returns (missing: seq<string>, failed: seq<string>)
    ensures missing == [] <==> forall file | file in work.coveredFiles :: RecordedSha(evidence.files, file).Some?
    ensures failed == [] <==> forall file | file in work.coveredFiles :: FileUncontested(evidence, file, actual)
  {
    missing, failed := [], [];
    var covered := SortDedup(work.coveredFiles, StringLe);
    CoveredInOrder(work.coveredFiles);
    for i := 0 to |covered|
      invariant missing == [] <==> forall j | 0 <= j < i :: RecordedSha(evidence.files, covered[j]).Some?
      invariant failed == [] <==> forall j | 0 <= j < i :: FileUncontested(evidence, covered[j], actual)
    {
      var absent, wrong := FileProblem(evidence, covered[i], actual);
      missing, failed := missing + absent, failed + wrong;
    }
  }

  /** What one covered file adds to the two lists. */
  method FileProblem(evidence: Evidence, file: string, actual: string -> Option<string>)
    returns (missing: seq<string>, failed: seq<string>)
    ensures missing == [] <==> RecordedSha(evidence.files, file).Some?
    ensures failed == [] <==> FileUncontested(evidence, file, actual)
  {
    var recorded := RecordedSha(evidence.files, file);
    if recorded.None? {
      return ["manifest-coverage: missing `" + file + "`"], [];
    }
    if actual(file).None? {
      return [], ["payload-hash-match: could not hash `" + file + "`"];
    }
    missing := [];
    failed := When(NormalizeSha256(recorded.value) != actual(file).value,
                   "payload-hash-match: `" + file + "` expected current " + actual(file).value);
  }

  lemma CoveredInOrder(files: seq<string>)
    ensures forall f :: f in SortDedup(files, StringLe) <==> f in files
  {
    StringLeIsOrder();
    SortDedupSpec(files, StringLe);
  }

  method OutsideProblems(work: Work, evidence: Evidence) returns (failed: seq<string>)
    ensures failed == [] <==> NothingOutside(work, evidence)
  {
    failed := [];
    for i := 0 to |evidence.files|
      invariant failed == [] <==> forall j | 0 <= j < i :: evidence.files[j].path in work.coveredFiles
    {
      if evidence.files[i].path !in work.coveredFiles {
        failed := failed + ["manifest-coverage: evidence file `" + evidence.files[i].path + "` is outside boundary"];
      }
    }
  }

  method CheckProblems(work: Work, evidence: Evidence) returns (missing: seq<string>, failed: seq<string>)
    ensures missing == [] <==>
              forall i | 0 <= i < |work.entry.requiredChecks| ::
                FirstCheck(evidence.checks, work.entry.requiredChecks[i]).Some?
    ensures failed == [] <==>
              forall i | 0 <= i < |work.entry.requiredChecks| ::
                CheckUncontested(evidence, work.entry.requiredChecks[i])
  {
    missing, failed := [], [];
    for i := 0 to |work.entry.requiredChecks|
      invariant missing == [] <==>
                forall j | 0 <= j < i :: FirstCheck(evidence.checks, work.entry.requiredChecks[j]).Some?
      invariant failed == [] <==>
                forall j | 0 <= j < i :: CheckUncontested(evidence, work.entry.requiredChecks[j])
    {
      var required := work.entry.requiredChecks[i];
      var check := FirstCheck(evidence.checks, required);
      if check.None? {
        missing := missing + [required + ": missing required check"];
      } else if check.value.status != "passed" && check.value.status != "pass" {
        failed := failed + [check.value.id + ": status `" + check.value.status + "`"];
      }
    }
  }

  ghost predicate AnyLoaded(loads: seq<Load>) {
    exists i :: 0 <= i < |loads| && loads[i].Loaded?
  }

  /** Every artifact is there and vouches for the boundary. */
  ghost predicate AllVouch(work: Work, loads: seq<Load>, actual: string -> Option<string>) {
    forall i | 0 <= i < |loads| :: loads[i].Loaded? && Vouches(work, loads[i].evidence, actual)
  }

  ghost predicate NoneInvalid(loads: seq<Load>) {
    forall i | 0 <= i < |loads| :: !loads[i].Invalid?
  }

  /**
   * The status a boundary ends with: it passes exactly when it is valid, has evidence, all of it vouches, and no
   * built-in source check (`builtin`) failed. `loads` are its required artifacts.
   */
  ghost predicate Finalized(work: Work, loads: seq<Load>, builtin: seq<string>, actual: string -> Option<string>,
                            status: Status)
  {
    && (status == Unsupported <==> work.unsupported != [])
    && (status == Unusable <==> work.unsupported == [] && work.invalid != [])
    && (status == Passed <==> Valid(work) && loads != [] && AllVouch(work, loads, actual) && builtin == [])
    && (status == MissingEvidence <==> Valid(work) && !AnyLoaded(loads) && NoneInvalid(loads) && builtin == [])
  }

  method FinalizeWork(work: Work, loads: seq<Load>, builtin: seq<string>, actual: string -> Option<string>)
    returns (status: Status)
    ensures Finalized(work, loads, builtin, actual, status)
  {
    var failed := work.invalid + work.unsupported;
    var missing, moreFailed, evidenceLoaded := LoadProblems(work, loads, actual);
    failed := failed + moreFailed;
    if loads == [] {
      missing := missing + ["required_evidence is empty"];
    } else if !evidenceLoaded && failed == [] {
      missing := missing + ["no boundary evidence could be loaded"];
    }
    failed := failed + builtin;
    assert loads != [] && AllVouch(work, loads, actual) ==> loads[0].Loaded?;
    assert loads == [] ==> !evidenceLoaded;
    status :=
      if work.unsupported != [] then Unsupported
      else if work.invalid != [] then Unusable
      else if !evidenceLoaded && failed == [] then MissingEvidence
      else if missing != [] || failed != [] then Failed
      else Passed;
  }

  method LoadProblems(work: Work, loads: seq<Load>, actual: string -> Option<string>)
    returns (missing: seq<string>, failed: seq<string>, evidenceLoaded: bool)
    ensures evidenceLoaded <==> AnyLoaded(loads)
    ensures missing == [] && failed == [] <==> AllVouch(work, loads, actual)
    ensures !evidenceLoaded ==> (failed == [] <==> NoneInvalid(loads))
  {
    missing, failed, evidenceLoaded := [], [], false;
    for i := 0 to |loads|
      invariant evidenceLoaded <==> AnyLoaded(loads[..i])
      invariant missing == [] && failed == [] <==> AllVouch(work, loads[..i], actual)
      invariant !evidenceLoaded ==> (failed == [] <==> NoneInvalid(loads[..i]))
    {
      assert loads[..i + 1] == loads[..i] + [loads[i]];
      match loads[i]
      case Missing =>
        missing := missing + ["missing evidence artifact"];
        assert !loads[..i + 1][i].Loaded?;
      case Invalid(error) =>
        failed := failed + ["invalid evidence artifact: " + error];
        assert loads[..i + 1][i].Invalid?;
      case Loaded(evidence) =>
        evidenceLoaded := true;
        var m, f := ValidateEvidence(work, evidence, actual);
        missing, failed := missing + m, failed + f;
        assert loads[..i + 1][i].Loaded?;
    }
    assert loads[..|loads|] == loads;
  }

  /** A covered file that changes after the evidence was made takes the pass away. */
  lemma StaleEvidenceDoesNotVouch(work: Work, evidence: Evidence, before: string -> Option<string>,
                                  after: string -> Option<string>, file: string)
    requires Vouches(work, evidence, before) && file in work.coveredFiles && after(file) != before(file)
    ensures !Vouches(work, evidence, after)
  {
  }

  /** A boundary whose lines count: its evidence passed, failed or is missing. */
  predicate Counts(status: Status) {
    status == Passed || status == Failed || status == MissingEvidence
  }

  lemma CountsIffValid(work: Work, loads: seq<Load>, builtin: seq<string>, actual: string -> Option<string>,
                       status: Status)
    requires Finalized(work, loads, builtin, actual, status)
    ensures Counts(status) <==> Valid(work)
  {
  }

  function CountedLines(works: seq<Work>, statuses: seq<Status>): nat
    requires |statuses| == |works|
  {
    if works == [] then 0
    else
      var n := |works| - 1;
      CountedLines(works[..n], statuses[..n]) + if Counts(statuses[n]) then works[n].coveredLineCount else 0
  }

  lemma {:induction false} CountedAreValid(works: seq<Work>, statuses: seq<Status>)
    requires |statuses| == |works| && forall i | 0 <= i < |works| :: Counts(statuses[i]) <==> Valid(works[i])
    ensures CountedLines(works, statuses) == ValidLines(works)
  {
    if works != [] {
      var n := |works| - 1;
      assert forall i | 0 <= i < n :: works[..n][i] == works[i] && statuses[..n][i] == statuses[i];
      CountedAreValid(works[..n], statuses[..n]);
    }
  }

  ghost predicate Disjoint(works: seq<Work>, statuses: seq<Status>)
    requires |statuses| == |works|
  {
    forall i, j | 0 <= i < j < |works| && Counts(statuses[i]) && Counts(statuses[j]) ::
      forall file :: file in works[i].coveredFiles ==> file !in works[j].coveredFiles
  }

  /** The artifacts and built-in findings of each boundary, and the current hashes. */
  datatype Sources = Sources(loads: Entry -> seq<Load>, builtin: seq<string> -> seq<string>,
                             actual: string -> Option<string>)

  /** The status a work ends with, given the sources. */
  ghost predicate Ends(work: Work, sources: Sources, status: Status) {
    Finalized(work, sources.loads(work.entry), sources.builtin(work.coveredFiles), sources.actual, status)
  }

  /**
   * Evaluates a manifest's boundaries. Whatever the entries, globs and evidence, the boundaries that end up
   * counting share no file and together count at most the Python lines there are.
   */
  method Evaluate(entries: seq<Entry>, globs: Globs, caps: set<string>, files: seq<SourceFile>, sources: Sources)
    returns (works: seq<Work>, statuses: seq<Status>)
    ensures |works| == |statuses| == |entries|
    ensures forall i | 0 <= i < |entries| ::
              works[i].entry == entries[i] && Ends(works[i], sources, statuses[i])
    ensures Disjoint(works, statuses) && CountedLines(works, statuses) <= PythonLines(files)
  {
    var built := BuildAll(entries, globs, caps, files);
    var marked := new Work[|built|](i requires 0 <= i < |built| => built[i]);
    assert marked[..] == built;
    MarkOverlaps(marked);
    works := marked[..];
    statuses := FinalizeAll(works, sources);
    MarkedCountOnce(built, works, statuses, globs, caps, files);
  }

  lemma MarkedCountOnce(before: seq<Work>, after: seq<Work>, statuses: seq<Status>, globs: Globs, caps: set<string>,
                        files: seq<SourceFile>)
    requires Built(before, globs, caps, files) && Marked(before, after) && |statuses| == |after|
    requires forall i | 0 <= i < |after| :: Counts(statuses[i]) <==> Valid(after[i])
    ensures Disjoint(after, statuses) && CountedLines(after, statuses) <= PythonLines(files)
  {
    forall i, j | 0 <= i < j < |after| && Counts(statuses[i]) && Counts(statuses[j])
      ensures forall file :: file in after[i].coveredFiles ==> file !in after[j].coveredFiles
    {
      ValidBoundariesAreDisjoint(before, after, i, j);
    }
    CountedAreValid(after, statuses);
    ValidBoundariesNeverDoubleCount(before, after, globs, caps, files);
  }

  method BuildAll(entries: seq<Entry>, globs: Globs, caps: set<string>,
                  files: seq<SourceFile>) returns (works: seq<Work>)
    ensures |works| == |entries| && Built(works, globs, caps, files)
    ensures forall i | 0 <= i < |entries| :: works[i].entry == entries[i]
  {
    works := [];
    for i := 0 to |entries|
      invariant |works| == i && Built(works, globs, caps, files)
      invariant forall j | 0 <= j < i :: works[j].entry == entries[j]
    {
      var work := BuildWork(entries[i], globs, caps, files);
      works := works + [work];
    }
  }

  method FinalizeAll(works: seq<Work>, sources: Sources) returns (statuses: seq<Status>)
    ensures |statuses| == |works|
    ensures forall i | 0 <= i < |works| ::
              Ends(works[i], sources, statuses[i]) && (Counts(statuses[i]) <==> Valid(works[i]))
  {
    statuses := [];
    for i := 0 to |works|
      invariant |statuses| == i
      invariant forall j | 0 <= j < i ::
                  Ends(works[j], sources, statuses[j]) && (Counts(statuses[j]) <==> Valid(works[j]))
    {
      var loads, builtin := sources.loads(works[i].entry), sources.builtin(works[i].coveredFiles);
      var status := FinalizeWork(works[i], loads, builtin, sources.actual);
      CountsIffValid(works[i], loads, builtin, sources.actual, status);
      statuses := statuses + [status];
    }
  }
}
