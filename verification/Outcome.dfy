/** One effective policy, and what an audit's outcome is under it. */
module Outcome {
  import opened Wrappers
  import opened Model
  import opened Sorting
  import opened StrictJson
  import opened Text
  import FixQueue
  import Ratchet

  const DEFAULT_MINIMUM_SCORE := 85

  datatype Mode = Advisory | Guarded | Standard | Ratcheting | Release

  datatype Error = NoPolicy | UnknownMode | InvalidScore | InvalidSeverity | BaselineUnreadable
                 | BaselineRefused(error: Ratchet.Error) | ProofUnreadable | Blocked | NoDecision | DecisionFailed

  datatype PolicyFile = PolicyFile(minimumScore: int, failOn: seq<string>, advisoryOn: seq<string>)
  datatype Policy = Policy(minimumScore: int, failOn: seq<string>, advisoryOn: seq<string>, mode: Option<string>)

  function ParseMode(name: string): Option<Mode> {
    if name == "advisory" then Some(Advisory)
    else if name == "guarded" then Some(Guarded)
    else if name == "standard" then Some(Standard)
    else if name == "ratchet" then Some(Ratcheting)
    else if name == "release" then Some(Release)
    else None
  }

  function ModeName(mode: Mode): string {
    match mode
    case Advisory => "advisory"
    case Guarded => "guarded"
    case Standard => "standard"
    case Ratcheting => "ratchet"
    case Release => "release"
  }

  lemma ModeNameParses(mode: Mode)
    ensures ParseMode(ModeName(mode)) == Some(mode)
  {
  }

  function ModeOf(policy: Policy): Option<Mode> {
    match policy.mode
    case Some(name) => ParseMode(name)
    case None => Some(Standard)
  }

  // ----- resolving the policy -----

  predicate IsScore(score: int) {
    0 <= score <= 100
  }

  function EffectiveScoreFloor(policy: int, requested: Option<int>): Result<int, Error> {
    if !IsScore(policy) || (requested.Some? && !IsScore(requested.value)) then Err(InvalidScore)
    else if requested.Some? && requested.value > policy then Ok(requested.value)
    else Ok(policy)
  }

  predicate AllSeverities(severities: seq<string>) {
    forall i | 0 <= i < |severities| :: Ratchet.IsSeverity(severities[i])
  }

  function DefaultPolicy(): PolicyFile {
    PolicyFile(DEFAULT_MINIMUM_SCORE, ["critical", "high"], ["medium", "low"])
  }

  /** The policy in force: the higher floor, every severity anyone asked to fail on, and the other advisory ones. */
  ghost predicate InForce(policy: Policy, file: PolicyFile, requested: Option<int>, cliFailOn: seq<string>,
                          mode: Mode) {
    && policy.minimumScore >= file.minimumScore && (requested.Some? ==> policy.minimumScore >= requested.value)
    && (policy.minimumScore == file.minimumScore || requested == Some(policy.minimumScore))
    && ListsSet(policy.failOn, Elements(file.failOn) + Elements(cliFailOn))
    && ListsSet(policy.advisoryOn, Elements(file.advisoryOn) - Elements(file.failOn) - Elements(cliFailOn))
    && policy.mode == Some(ModeName(mode))
  }

  method ResolvePolicy(file: Option<PolicyFile>, requested: Option<int>, cliFailOn: seq<string>, mode: Mode)
    returns (r: Result<Policy, Error>)
    ensures var parsed := if file.Some? then file.value else DefaultPolicy();
            && (r.Ok? <==> && IsScore(parsed.minimumScore) && (requested.Some? ==> IsScore(requested.value))
                           && AllSeverities(parsed.failOn) && AllSeverities(parsed.advisoryOn)
                           && AllSeverities(cliFailOn))
            && (r.Ok? ==> InForce(r.value, parsed, requested, cliFailOn, mode) && ModeOf(r.value) == Some(mode))
  {
    var parsed := if file.Some? then file.value else DefaultPolicy();
    if !IsScore(parsed.minimumScore) {
      return Err(InvalidScore);
    }
    if !AllSeverities(parsed.failOn) || !AllSeverities(parsed.advisoryOn) || !AllSeverities(cliFailOn) {
      return Err(InvalidSeverity);
    }
    var minimumScore :- EffectiveScoreFloor(parsed.minimumScore, requested);
    var failOn, advisoryOn := SeverityLists(parsed, cliFailOn);
    ModeNameParses(mode);
    r := Ok(Policy(minimumScore, failOn, advisoryOn, Some(ModeName(mode))));
  }

  method SeverityLists(parsed: PolicyFile, cliFailOn: seq<string>) returns (failOn: seq<string>,
                       advisoryOn: seq<string>)
    ensures ListsSet(failOn, Elements(parsed.failOn) + Elements(cliFailOn))
    ensures ListsSet(advisoryOn, Elements(parsed.advisoryOn) - Elements(parsed.failOn) - Elements(cliFailOn))
  {
    failOn := SortDedup(parsed.failOn + cliFailOn, StringLe);
    var kept := Without(parsed.advisoryOn, failOn);
    advisoryOn := SortDedup(kept, StringLe);
    StringLeIsOrder();
    SortDedupSpec(parsed.failOn + cliFailOn, StringLe);
    WithoutElements(parsed.advisoryOn, failOn);
    SortDedupSpec(kept, StringLe);
  }

  /** The order and repetition of severities, on the command line or in the file, make no difference. */
  lemma PolicyDependsOnSets(p: Policy, q: Policy, f: PolicyFile, g: PolicyFile, requested: Option<int>,
                            cliF: seq<string>, cliG: seq<string>, mode: Mode)
    requires InForce(p, f, requested, cliF, mode) && InForce(q, g, requested, cliG, mode)
    requires f.minimumScore == g.minimumScore && Elements(f.failOn) == Elements(g.failOn)
    requires Elements(f.advisoryOn) == Elements(g.advisoryOn) && Elements(cliF) == Elements(cliG)
    ensures p == q
  {
    ListsSetUnique(p.failOn, q.failOn, Elements(f.failOn) + Elements(cliF));
    ListsSetUnique(p.advisoryOn, q.advisoryOn, Elements(f.advisoryOn) - Elements(f.failOn) - Elements(cliF));
  }

  /** No severity both fails and advises. */
  lemma FailAndAdviseAreDisjoint(p: Policy, f: PolicyFile, requested: Option<int>, cli: seq<string>, mode: Mode,
                                 s: string)
    requires InForce(p, f, requested, cli, mode) && s in p.failOn
    ensures s !in p.advisoryOn
  {
  }

  /** `q` asks for no less than `p`. */
  ghost predicate Stricter(q: Policy, p: Policy) {
    q.minimumScore >= p.minimumScore && Elements(p.failOn) <= Elements(q.failOn) && q.mode == p.mode
  }

  /** More severities on the command line or a higher requested floor only make the policy stricter. */
  lemma MoreOptionsAreStricter(p: Policy, q: Policy, file: PolicyFile, less: Option<int>, more: Option<int>,
                               few: seq<string>, many: seq<string>, mode: Mode)
    requires InForce(p, file, less, few, mode) && InForce(q, file, more, many, mode)
    requires Elements(few) <= Elements(many)
    requires less.Some? ==> more.Some? && more.value >= less.value
    ensures Stricter(q, p)
  {
  }

  // ----- the decision -----

  datatype Status = AdvisoryStatus | PassStatus | FailStatus
  datatype Level = HL1 | HL2 | HL3
  datatype Conformance = Conforms | NeedsReview | Blocks

  datatype Decision = Decision(status: Status, minimumScore: int, passed: bool, hardFindings: nat, softFindings: nat,
                               ratchet: Option<Ratchet.Comparison>)

  function Repeat(c: char, n: nat): string {
    if n == 0 then "" else [c] + Repeat(c, n - 1)
  }

  /** The digest of nothing: 64 zeros. */
  function MissingSha256(): string {
    "sha256:" + Repeat('0', 64)
  }

  /** How many findings have a severity the policy fails on. */
  function HardCount(findings: seq<Finding>, failOn: seq<string>): nat {
    if findings == [] then 0
    else
      var n := |findings| - 1;
      HardCount(findings[..n], failOn) + if findings[n].severity in failOn then 1 else 0
  }

  lemma {:induction false} HardCountBounds(findings: seq<Finding>, failOn: seq<string>)
    ensures HardCount(findings, failOn) <= |findings|
    ensures HardCount(findings, failOn) == 0 <==> forall i | 0 <= i < |findings| :: findings[i].severity !in failOn
  {
    if findings != [] {
      var n := |findings| - 1;
      HardCountBounds(findings[..n], failOn);
      assert forall i | 0 <= i < n :: findings[..n][i] == findings[i];
    }
  }

  function NoComparison(score: int, passed: bool): Ratchet.Comparison {
    Ratchet.Comparison(score, 0, passed, 0, MissingSha256(), MissingSha256(), MissingSha256(), [], [], false)
  }

  function ReportDecision(score: int, findings: seq<Finding>, policy: Policy): Decision {
    var hard := HardCount(findings, policy.failOn);
    var passed := score >= policy.minimumScore && hard == 0;
    Decision(if passed then PassStatus else FailStatus, policy.minimumScore, passed, hard,
             if |findings| >= hard then |findings| - hard else 0, Some(NoComparison(score, passed)))
  }

  // ----- blockers -----

  predicate Blocking(f: Finding, policy: Policy) {
    Ratchet.IsHard(f.severity) || f.severity in policy.failOn
  }

  function BlockerText(f: Finding): string {
    (if f.ruleId.Some? then f.ruleId.value else f.checkId) + " on " + f.path
  }

  function Blockers(findings: seq<Finding>, policy: Policy): seq<string> {
    if findings == [] then []
    else
      var n := |findings| - 1;
      Blockers(findings[..n], policy) + if Blocking(findings[n], policy) then [BlockerText(findings[n])] else []
  }

  ghost predicate NoneBlocking(findings: seq<Finding>, policy: Policy) {
    forall i | 0 <= i < |findings| :: !Blocking(findings[i], policy)
  }

  lemma {:induction false} BlockersEmpty(findings: seq<Finding>, policy: Policy)
    ensures Blockers(findings, policy) == [] <==> NoneBlocking(findings, policy)
  {
    if findings != [] {
      var n := |findings| - 1;
      BlockersEmpty(findings[..n], policy);
      assert forall i | 0 <= i < n :: findings[..n][i] == findings[i];
    }
  }

  // ----- the assessment -----

  /**
   * A baseline file: it cannot be opened or parsed, it lacks required fields, or it reads; `legacyPolicy` says whether
   * its old policy fingerprint is let through.
   */
  datatype Baseline = Unreadable | Refused(error: Ratchet.Error) | Read(base: Ratchet.Snapshot, legacyPolicy: bool)

  predicate Ratchets(mode: Mode) {
    mode == Ratcheting || mode == Release
  }

  predicate Comparable(report: Ratchet.Report, baseline: Baseline) {
    baseline.Read? && IsScore(report.score)
  }

  /** Reads a baseline document, if the file could be parsed. */
  method LoadBaseline(document: Option<Value>, legacyPolicy: bool) returns (b: Baseline)
    ensures b.Unreadable? <==> document.None?
    ensures b.Read? <==> document.Some? && exists base :: Ratchet.Reads(document.value, base)
    ensures b.Read? ==> Ratchet.Reads(document.value, b.base) && b.legacyPolicy == legacyPolicy
  {
    if document.None? {
      return Unreadable;
    }
    var base := Ratchet.ReadBaseline(document.value, 0);
    b := if base.Ok? then Read(base.value, legacyPolicy) else Refused(base.error);
  }

  /** The report does not fall behind the baseline, if there is one to compare with. */
  ghost predicate HoldsUpTo(report: Ratchet.Report, baseline: Baseline) {
    Comparable(report, baseline) && Ratchet.HoldsUp(report, baseline.base, baseline.legacyPolicy)
  }

  /** Comparing with a loaded baseline is comparing with the document it was loaded from. */
  lemma LoadedBaselineCompares(report: Ratchet.Report, document: Value, baseline: Baseline)
    requires baseline.Read? && Ratchet.Reads(document, baseline.base)
    ensures HoldsUpTo(report, baseline) <==> Ratchet.Passes(report, document, baseline.legacyPolicy)
  {
    Ratchet.PassesBySnapshot(report, document, baseline.base, baseline.legacyPolicy);
  }

  /**
   * When a decision passes: a high enough score, no blocking finding, release proof in release mode, and in
   * the ratcheting modes a baseline that is not fallen behind (required in ratchet mode, optional in release).
   */
  ghost predicate Succeeds(policy: Policy, mode: Mode, report: Ratchet.Report, baseline: Option<Baseline>,
                           releaseComplete: bool)
  {
    && report.score >= policy.minimumScore
    && NoneBlocking(report.findings, policy)
    && (mode == Release ==> releaseComplete)
    && (mode == Ratcheting ==> baseline.Some?)
    && (Ratchets(mode) && baseline.Some? ==> HoldsUpTo(report, baseline.value))
  }

  datatype Assessment = Assessment(decision: Decision, level: Level, conformance: Conformance, blockers: seq<string>)

  predicate FullStandard(policy: Policy, mode: Mode, scopeMode: string) {
    && scopeMode == "full" && mode != Advisory && policy.minimumScore >= DEFAULT_MINIMUM_SCORE
    && "critical" in policy.failOn && "high" in policy.failOn
  }

  /** The comparison recorded with a decision; without a baseline, the report's own score stands in. */
  ghost predicate Records(decision: Decision, policy: Policy, mode: Mode, report: Ratchet.Report,
                          baseline: Option<Baseline>)
  {
    && decision.ratchet.Some?
    && match baseline
       case None =>
         var ownPassed := report.score >= policy.minimumScore && decision.hardFindings == 0;
         decision.ratchet.value == NoComparison(report.score, ownPassed && mode != Ratcheting)
       case Some(b) => b.Read? && Ratchet.Compares(decision.ratchet.value, report, b.base, b.legacyPolicy)
  }

  ghost predicate Decides(decision: Decision, policy: Policy, mode: Mode, report: Ratchet.Report,
                          baseline: Option<Baseline>, releaseComplete: bool)
  {
    && (decision.passed <==> Succeeds(policy, mode, report, baseline, releaseComplete))
    && decision.status
       == (if mode == Advisory then AdvisoryStatus else if decision.passed then PassStatus else FailStatus)
    && decision.minimumScore == policy.minimumScore
    && decision.hardFindings == HardCount(report.findings, policy.failOn)
    && decision.hardFindings + decision.softFindings == |report.findings|
    && Records(decision, policy, mode, report, baseline)
  }

  ghost predicate Assesses(a: Assessment, policy: Policy, mode: Mode, scopeMode: string, report: Ratchet.Report,
                           baseline: Option<Baseline>, releaseComplete: bool)
  {
    && Decides(a.decision, policy, mode, report, baseline, releaseComplete)
    && a.blockers == Blockers(report.findings, policy)
    && a.level == (if a.decision.passed && FullStandard(policy, mode, scopeMode) then HL3
                   else if mode == Advisory || scopeMode != "full" then HL1 else HL2)
    && a.conformance == (if mode == Advisory then NeedsReview
                         else if !NoneBlocking(report.findings, policy) then Blocks
                         else if a.decision.passed && FullStandard(policy, mode, scopeMode) then Conforms
                         else NeedsReview)
  }

  /** The comparison a decision records, or why there is none to make. */
  method CompareWith(report: Ratchet.Report, baseline: Baseline) returns (r: Result<Ratchet.Comparison, Error>)
    ensures r.Ok? <==> Comparable(report, baseline)
    ensures r.Ok? ==> Ratchet.Compares(r.value, report, baseline.base, baseline.legacyPolicy)
    ensures r.Ok? ==> (r.value.passed <==> HoldsUpTo(report, baseline))
  {
    match baseline
    case Unreadable => r := Err(BaselineUnreadable);
    case Refused(error) => r := Err(BaselineRefused(error));
    case Read(base, legacyPolicy) =>
      if !IsScore(report.score) {
        return Err(BaselineRefused(Ratchet.ScoreRange));
      }
      var comparison := Ratchet.CompareWith(report, base, legacyPolicy);
      r := Ok(comparison);
  }

  /** Compares with the baseline and applies the mode's rules to the policy's own decision. */
  method Decide(policy: Policy, mode: Mode, report: Ratchet.Report, baseline: Option<Baseline>, releaseComplete: bool)
    returns (r: Result<Decision, Error>)
    ensures r.Ok? <==> (baseline.Some? ==> Comparable(report, baseline.value))
    ensures r.Ok? ==> Decides(r.value, policy, mode, report, baseline, releaseComplete)
  {
    HardCountBounds(report.findings, policy.failOn);
    var decision := ReportDecision(report.score, report.findings, policy);
    var passed, ratchet := decision.passed, decision.ratchet.value;
    if baseline.Some? {
      ratchet :- CompareWith(report, baseline.value);
      if Ratchets(mode) && !ratchet.passed {
        passed := false;
      }
    } else if mode == Ratcheting {
      passed := false;
      ratchet := ratchet.(passed := false);
    }
    if mode == Release && !releaseComplete {
      passed := false;
    }
    BlockersEmpty(report.findings, policy);
    if Blockers(report.findings, policy) != [] {
      passed := false;
    }
    var status := if mode == Advisory then AdvisoryStatus else if !passed then FailStatus else decision.status;
    r := Ok(Decision(status, decision.minimumScore, passed, decision.hardFindings, decision.softFindings,
                     Some(ratchet)));
  }

  /** The level and the conformance that follow from a decision. */
  method Conclude(decision: Decision, policy: Policy, mode: Mode, scopeMode: string, report: Ratchet.Report,
                  ghost baseline: Option<Baseline>, ghost releaseComplete: bool)
    returns (a: Assessment)
    requires Decides(decision, policy, mode, report, baseline, releaseComplete)
    ensures a.decision == decision && Assesses(a, policy, mode, scopeMode, report, baseline, releaseComplete)
  {
    var blockers := Blockers(report.findings, policy);
    BlockersEmpty(report.findings, policy);
    var full := FullStandard(policy, mode, scopeMode);
    var conforms := decision.passed && blockers == [] && full;
    var level := if conforms then HL3 else if mode == Advisory || scopeMode != "full" then HL1 else HL2;
    var conformance := if mode == Advisory then NeedsReview else if blockers != [] then Blocks
                       else if conforms then Conforms else NeedsReview;
    a := Assessment(decision, level, conformance, blockers);
  }

  ghost predicate CanAssess(policy: Option<Policy>, report: Ratchet.Report, baseline: Option<Baseline>) {
    policy.Some? && ModeOf(policy.value).Some? && (baseline.Some? ==> Comparable(report, baseline.value))
  }

  /** The outcome of the report under the mode its policy names. */
  ghost predicate Outcomes(a: Assessment, policy: Option<Policy>, scopeMode: string, report: Ratchet.Report,
                           baseline: Option<Baseline>, releaseComplete: bool)
  {
    && policy.Some? && ModeOf(policy.value).Some?
    && Assesses(a, policy.value, ModeOf(policy.value).value, scopeMode, report, baseline, releaseComplete)
  }

  method AssessValues(policy: Option<Policy>, scopeMode: string, report: Ratchet.Report, baseline: Option<Baseline>,
                      releaseComplete: bool)
    returns (r: Result<Assessment, Error>)
    ensures r.Ok? <==> CanAssess(policy, report, baseline)
    ensures policy.None? ==> r == Err(NoPolicy)
    ensures policy.Some? && ModeOf(policy.value).None? ==> r == Err(UnknownMode)
    ensures r.Ok? ==> Outcomes(r.value, policy, scopeMode, report, baseline, releaseComplete)
  {
    if policy.None? {
      return Err(NoPolicy);
    }
    var mode := ModeOf(policy.value);
    if mode.None? {
      return Err(UnknownMode);
    }
    var decided := Decide(policy.value, mode.value, report, baseline, releaseComplete);
    if decided.Err? {
      return Err(decided.error);
    }
    var a := Conclude(decided.value, policy.value, mode.value, scopeMode, report, baseline, releaseComplete);
    r := Ok(a);
  }

  // ----- the report -----

  /** No weak policy passes a report with a blocking finding. */
  lemma BlockingFindingBlocks(a: Assessment, policy: Option<Policy>, scopeMode: string, report: Ratchet.Report,
                              baseline: Option<Baseline>, releaseComplete: bool, f: Finding)
    requires Outcomes(a, policy, scopeMode, report, baseline, releaseComplete)
    requires f in report.findings && Blocking(f, policy.value)
    ensures !a.decision.passed && a.level != HL3
    ensures ModeOf(policy.value) == Some(Advisory) || a.conformance == Blocks
  {
    var i :| 0 <= i < |report.findings| && report.findings[i] == f;
    assert !NoneBlocking(report.findings, policy.value);
  }

  /** `Enforce` asks about the conformance too, but in an assessed report that adds nothing to the decision. */
  lemma EnforcedIffAdvisoryOrPassed(a: Assessment, policy: Option<Policy>, scopeMode: string, report: Ratchet.Report,
                                    baseline: Option<Baseline>, releaseComplete: bool)
    requires Outcomes(a, policy, scopeMode, report, baseline, releaseComplete)
    ensures var advisory := ModeOf(policy.value) == Some(Advisory);
            a.conformance != Blocks && (advisory || a.decision.passed) <==> advisory || a.decision.passed
  {
    BlockersEmpty(report.findings, policy.value);
  }

  /** The finding that every release gains; only its two texts are left open. */
  predicate IsReleaseFinding(f: Finding) {
    && f.severity == "high" && f.category == "proof" && f.hardness == "hard"
    && f.path == "proof-evidence" && f.checkId == "proof-evidence" && f.fingerprint == "sha256:pending"
    && f.ruleId == Some("HLT-008-FALSE-GREEN-RISK") && f.tlr == Some("proof") && f.lane == Some("release")
    && f.owner == Some("agent") && f.line == None
  }

  method UnsupervisedRelease() returns (f: Finding)
    ensures IsReleaseFinding(f)
    ensures f.problem == "release requires supervised execution; imported proof cannot establish it"
    ensures f.agentFix == "qualify producer-owned supervised execution before accepting release evidence"
  {
    f := Finding("high", "proof", "proof-evidence",
                 "release requires supervised execution; imported proof cannot establish it",
                 "qualify producer-owned supervised execution before accepting release evidence",
                 "proof-evidence", "sha256:pending", Some("HLT-008-FALSE-GREEN-RISK"), Some("proof"), Some("release"),
                 Some("agent"), None, "hard");
  }

  /** The imported findings and the release finding have joined the ones there were. */
  ghost predicate Gains(before: seq<Finding>, imported: seq<Finding>, after: seq<Finding>) {
    exists release :: IsReleaseFinding(release) && after == before + (imported + [release])
  }

  method ReleaseProofFindings(imported: seq<Finding>) returns (findings: seq<Finding>)
    ensures Gains([], imported, findings)
  {
    var release := UnsupervisedRelease();
    findings := imported + [release];
    assert findings == [] + (imported + [release]);
  }

  lemma GainsAppended(before: seq<Finding>, imported: seq<Finding>, findings: seq<Finding>)
    requires Gains([], imported, findings)
    ensures Gains(before, imported, before + findings) && findings != []
  {
    var release :| IsReleaseFinding(release) && findings == [] + (imported + [release]);
    assert before + findings == before + (imported + [release]);
  }

  lemma GainedFindingBlocks(before: seq<Finding>, imported: seq<Finding>, after: seq<Finding>, policy: Policy)
    returns (release: Finding)
    requires Gains(before, imported, after)
    ensures release in after && Blocking(release, policy)
  {
    release :| IsReleaseFinding(release) && after == before + (imported + [release]);
    assert after[|after| - 1] == release;
  }

  /**
   * Whatever proof is imported, a release that is assessed neither passes nor conforms, and only advisory mode
   * is not blocked.
   */
  lemma ReleaseNeverPasses(a: Assessment, policy: Option<Policy>, scopeMode: string, report: Ratchet.Report,
                           baseline: Option<Baseline>, releaseComplete: bool, before: seq<Finding>,
                           imported: seq<Finding>)
    requires Outcomes(a, policy, scopeMode, report, baseline, releaseComplete)
    requires Gains(before, imported, report.findings)
    ensures !a.decision.passed && a.level != HL3
    ensures ModeOf(policy.value) == Some(Advisory) || a.conformance == Blocks
  {
    var release := GainedFindingBlocks(before, imported, report.findings, policy.value);
    BlockingFindingBlocks(a, policy, scopeMode, report, baseline, releaseComplete, release);
  }

  /** The audit report with the fields its assessment fills in. */
  class AuditReport {
    var policy: Option<Policy>
    var scopeMode: string
    var body: Ratchet.Report
    var fixQueue: seq<FixQueue.AgentFix>
    var decision: Option<Decision>
    var level: Level
    var conformance: Conformance
    var blockers: seq<string>

    /** The derived fields are what assessing the others with these arguments gives. */
    ghost predicate AssessedBy(baseline: Option<Baseline>, releaseComplete: bool)
      reads this
    {
      && decision.Some?
      && Outcomes(Assessment(decision.value, level, conformance, blockers), policy, scopeMode, body, baseline,
                  releaseComplete)
    }

    ghost predicate Assessed()
      reads this
    {
      exists baseline, releaseComplete :: AssessedBy(baseline, releaseComplete)
    }

    /** The fields that an assessment fills in. */
    ghost function Derived(): (Option<Decision>, Level, Conformance, seq<string>)
      reads this
    {
      (decision, level, conformance, blockers)
    }

    ghost predicate HasMode(mode: Mode)
      reads this
    {
      policy.Some? && ModeOf(policy.value) == Some(mode)
    }

    ghost predicate Passed()
      reads this
    {
      decision.Some? && decision.value.passed
    }

    /** When `Enforce` succeeds. */
    ghost predicate Enforced()
      reads this
    {
      && policy.Some? && ModeOf(policy.value).Some? && conformance != Blocks
      && (HasMode(Advisory) || Passed())
    }

    method Assess(baseline: Option<Baseline>, releaseComplete: bool) returns (r: Result<(), Error>)
      modifies `decision, `level, `conformance, `blockers
      ensures r.Ok? <==> CanAssess(policy, body, baseline)
      ensures r.Ok? ==> AssessedBy(baseline, releaseComplete)
      ensures r.Err? ==> Derived() == old(Derived())
    {
      var assessed := AssessValues(policy, scopeMode, body, baseline, releaseComplete);
      if assessed.Err? {
        return Err(assessed.error);
      }
      var Assessment(newDecision, newLevel, newConformance, newBlockers) := assessed.value;
      decision, level, conformance, blockers := Some(newDecision), newLevel, newConformance, newBlockers;
      r := Ok(());
    }

    /** Refreshes every derived field; a release stays incomplete. */
    method Finalize(baseline: Option<Baseline>) returns (r: Result<(), Error>)
      modifies `decision, `level, `conformance, `blockers
      ensures r.Ok? <==> CanAssess(policy, body, baseline)
      ensures r.Ok? ==> AssessedBy(baseline, false)
      ensures r.Err? ==> Derived() == old(Derived())
    {
      r := Assess(baseline, false);
    }

    /**
     * Assesses a release. `imported` are the findings about the supplied proof, if it could be read. The
     * release finding joins them every time, so the findings grow and the release is never complete. A decision
     * passes afterwards only if it did before and the assessment failed.
     */
    method FinalizeRelease(baseline: Option<Baseline>, imported: Option<seq<Finding>>) returns (r: Result<(), Error>)
      modifies `body, `fixQueue, `decision, `level, `conformance, `blockers
      ensures imported.None? ==> r == Err(ProofUnreadable) && body == old(body) && fixQueue == old(fixQueue)
      ensures imported.Some? ==>
                && Gains(old(body).findings, imported.value, body.findings)
                && body == old(body).(findings := body.findings)
                && fixQueue == FixQueue.Fixes(FixQueue.Queued(body.findings))
                && (r.Ok? <==> CanAssess(policy, body, baseline))
      ensures r.Ok? ==> AssessedBy(baseline, false) && level != HL3 && (HasMode(Advisory) <==> conformance != Blocks)
      ensures r.Err? ==> Derived() == old(Derived())
      ensures Passed() <==> r.Err? && old(Passed())
    {
      if imported.None? {
        return Err(ProofUnreadable);
      }
      var findings := ReleaseProofFindings(imported.value);
      ghost var before := body.findings;
      GainsAppended(before, imported.value, findings);
      r := CompleteRelease(baseline, findings);
      if r.Ok? {
        ReleaseNeverPasses(Assessment(decision.value, level, conformance, blockers), policy, scopeMode, body, baseline,
                           false, before, imported.value);
      }
    }

    method CompleteRelease(baseline: Option<Baseline>, findings: seq<Finding>) returns (r: Result<(), Error>)
      modifies `body, `fixQueue, `decision, `level, `conformance, `blockers
      ensures body == old(body).(findings := old(body).findings + findings)
      ensures fixQueue == if findings == [] then old(fixQueue) else FixQueue.Fixes(FixQueue.Queued(body.findings))
      ensures r.Ok? <==> CanAssess(policy, body, baseline)
      ensures r.Ok? ==> AssessedBy(baseline, findings == [])
      ensures r.Err? ==> Derived() == old(Derived())
    {
      var releaseComplete := findings == [];
      if !releaseComplete {
        Extend(findings);
      }
      r := Assess(baseline, releaseComplete);
    }

    /** Adds findings and rebuilds the queue of fixes from all of them. */
    method Extend(findings: seq<Finding>)
      modifies `body, `fixQueue
      ensures body == old(body).(findings := old(body).findings + findings)
      ensures fixQueue == FixQueue.Fixes(FixQueue.Queued(body.findings))
    {
      body := body.(findings := body.findings + findings);
      fixQueue := FixQueue.BuildAgentFixQueue(body.findings);
    }

    /** Whether the report lets a command succeed; once assessed, that is being advisory or having passed. */
    method Enforce() returns (r: Result<(), Error>)
      ensures r.Ok? <==> Enforced()
      ensures policy.None? ==> r == Err(NoPolicy)
      ensures policy.Some? && ModeOf(policy.value).None? ==> r == Err(UnknownMode)
      ensures policy.Some? && ModeOf(policy.value).Some? && conformance == Blocks ==> r == Err(Blocked)
      ensures Assessed() ==> (r.Ok? <==> HasMode(Advisory) || Passed())
    {
      AssessedEnforces();
      if policy.None? {
        return Err(NoPolicy);
      }
      var mode := ModeOf(policy.value);
      if mode.None? {
        return Err(UnknownMode);
      }
      if conformance == Blocks {
        return Err(Blocked);
      }
      if mode.value == Advisory {
        return Ok(());
      }
      if decision.None? {
        return Err(NoDecision);
      }
      if !decision.value.passed {
        return Err(DecisionFailed);
      }
      r := Ok(());
    }

    lemma AssessedEnforces()
      ensures Assessed() ==> (Enforced() <==> HasMode(Advisory) || Passed())
    {
      if Assessed() {
        var baseline, releaseComplete :| AssessedBy(baseline, releaseComplete);
        EnforcedIffAdvisoryOrPassed(Assessment(decision.value, level, conformance, blockers), policy, scopeMode, body,
                                    baseline, releaseComplete);
      }
    }
  }

  /**
   * Finalizing a release and then enforcing: after an assessment only advisory mode succeeds, but when the
   * assessment fails the enforcement answers as it did before, from the earlier decision.
   */
  method ReleaseThenEnforce(report: AuditReport, baseline: Option<Baseline>, imported: Option<seq<Finding>>)
    returns (finalized: Result<(), Error>, enforced: Result<(), Error>)
    modifies report
    ensures report.policy == old(report.policy) && report.scopeMode == old(report.scopeMode)
    ensures imported.Some? ==>
              && Gains(old(report.body).findings, imported.value, report.body.findings)
              && report.body == old(report.body).(findings := report.body.findings)
    ensures finalized.Ok? <==> imported.Some? && CanAssess(report.policy, report.body, baseline)
    ensures finalized.Ok? ==> (enforced.Ok? <==> report.HasMode(Advisory))
    ensures finalized.Err? ==> (enforced.Ok? <==> old(report.Enforced())) && report.Derived() == old(report.Derived())
  {
    finalized := report.FinalizeRelease(baseline, imported);
    enforced := report.Enforce();
  }

  lemma CleanReportConforms(a: Assessment, policy: Option<Policy>, scopeMode: string, report: Ratchet.Report)
    requires Outcomes(a, policy, scopeMode, report, None, false) && ModeOf(policy.value) == Some(Standard)
    requires FullStandard(policy.value, Standard, scopeMode)
    requires report.findings == [] && report.score >= policy.value.minimumScore
    ensures a.decision.passed && a.conformance == Conforms
  {
  }

  /** A clean report passes and conforms... */
  method FinalizeClean(report: AuditReport) returns (finalized: Result<(), Error>)
    requires report.HasMode(Standard) && FullStandard(report.policy.value, Standard, report.scopeMode)
    requires report.body.findings == [] && report.body.score >= report.policy.value.minimumScore
    modifies report`decision, report`level, report`conformance, report`blockers
    ensures finalized.Ok? && report.Passed() && report.conformance == Conforms && report.Enforced()
  {
    finalized := report.Finalize(None);
    CleanReportConforms(Assessment(report.decision.value, report.level, report.conformance, report.blockers),
                        report.policy, report.scopeMode, report.body);
  }

  /** ...and still does when it is then finalized as a release whose baseline cannot be read. */
  method FailedReleaseStillEnforces(report: AuditReport)
    returns (finalized: Result<(), Error>, enforced: Result<(), Error>)
    requires report.Passed() && report.Enforced()
    modifies report
    ensures finalized.Err? && report.Passed() && enforced.Ok?
    ensures Gains(old(report.body).findings, [], report.body.findings)
  {
    finalized, enforced := ReleaseThenEnforce(report, Some(Unreadable), Some([]));
  }

  // ----- what an assessment implies -----

  /** The highest level and a conforming decision are one thing. */
  lemma HighestLevelIffConforms(a: Assessment, policy: Option<Policy>, scopeMode: string, report: Ratchet.Report,
                                baseline: Option<Baseline>, releaseComplete: bool)
    requires Outcomes(a, policy, scopeMode, report, baseline, releaseComplete)
    ensures a.level == HL3 <==> a.conformance == Conforms
    ensures a.level == HL3 ==> a.decision.status == PassStatus && a.blockers == []
  {
    BlockersEmpty(report.findings, policy.value);
  }

  /**
   * Assessing again gives what the last call alone would: the result depends on the report's inputs and the
   * call's arguments, never on what an earlier assessment left behind.
   */
  lemma AssessmentIsHistoryFree(a: Assessment, b: Assessment, policy: Option<Policy>, scopeMode: string,
                                report: Ratchet.Report, baseline: Option<Baseline>, releaseComplete: bool)
    requires Outcomes(a, policy, scopeMode, report, baseline, releaseComplete)
    requires Outcomes(b, policy, scopeMode, report, baseline, releaseComplete)
    ensures a == b
  {
    var mode := ModeOf(policy.value).value;
    DecisionIsUnique(a.decision, b.decision, policy.value, mode, report, baseline, releaseComplete);
  }

  lemma DecisionIsUnique(a: Decision, b: Decision, policy: Policy, mode: Mode, report: Ratchet.Report,
                         baseline: Option<Baseline>, releaseComplete: bool)
    requires Decides(a, policy, mode, report, baseline, releaseComplete)
    requires Decides(b, policy, mode, report, baseline, releaseComplete)
    ensures a == b
  {
    if baseline.Some? {
      Ratchet.ComparisonIsUnique(a.ratchet.value, b.ratchet.value, report, baseline.value.base,
                                 baseline.value.legacyPolicy);
    }
  }

  // ----- strengthening -----

  /** `worse` is the same report with no fewer findings and caps and no higher score. */
  ghost predicate Worse(worse: Ratchet.Report, better: Ratchet.Report) {
    && worse.score <= better.score
    && Elements(better.caps) <= Elements(worse.caps)
    && (forall f | f in better.findings :: f in worse.findings)
    && worse.schemaVersion == better.schemaVersion && worse.standardVersion == better.standardVersion
  }

  lemma StricterBlocksMore(f: Finding, p: Policy, q: Policy)
    requires Stricter(q, p)
    ensures Blocking(f, p) ==> Blocking(f, q)
  {
    assert f.severity in p.failOn <==> f.severity in Elements(p.failOn);
    assert f.severity in q.failOn <==> f.severity in Elements(q.failOn);
  }

  lemma FewerFindingsBlockLess(better: seq<Finding>, worse: seq<Finding>, p: Policy, q: Policy)
    requires NoneBlocking(worse, q) && Stricter(q, p)
    requires forall f | f in better :: f in worse
    ensures NoneBlocking(better, p)
  {
    forall i | 0 <= i < |better| ensures !Blocking(better[i], p) {
      assert better[i] in worse;
      var j :| 0 <= j < |worse| && worse[j] == better[i];
      StricterBlocksMore(better[i], p, q);
    }
  }

  lemma FewerFindingsFewerHard(better: Ratchet.Report, worse: Ratchet.Report)
    requires forall f | f in better.findings :: f in worse.findings
    ensures Ratchet.HardSet(better) <= Ratchet.HardSet(worse)
  {
    forall s | s in Ratchet.HardSet(better) ensures s in Ratchet.HardSet(worse) {
      var i :| && 0 <= i < |better.findings| && Ratchet.IsHard(better.findings[i].severity)
               && better.findings[i].fingerprint == s;
      assert better.findings[i] in worse.findings;
      var j :| 0 <= j < |worse.findings| && worse.findings[j] == better.findings[i];
      assert Ratchet.IsHard(worse.findings[j].severity);
    }
  }

  /** Two readings of one baseline; only what the check for old policy fingerprints answers may differ. */
  ghost predicate SameBaseline(a: Option<Baseline>, b: Option<Baseline>) {
    || a == b
    || (a.Some? && b.Some? && a.value.Read? && b.value.Read? && a.value.base == b.value.base)
  }

  /** In the ratcheting modes, a baseline accepts the report's policy and the report's score is one. */
  predicate Acceptable(report: Ratchet.Report, mode: Mode, baseline: Option<Baseline>)
    requires Ratchets(mode) && baseline.Some? ==> baseline.value.Read?
  {
    Ratchets(mode) && baseline.Some? ==>
      && report.score <= 100
      && (report.policyFingerprint == baseline.value.base.policyFingerprint || baseline.value.legacyPolicy)
  }

  /**
   * When strengthening does not rescue: a report that passes under a stricter policy, with more findings and a lower
   * score, passes without all that exactly if the baseline accepts the weaker policy too. `b` is the baseline as
   * read for the better report, `c` as read for the worse one.
   */
  lemma WeakeningPassesIff(p: Policy, q: Policy, mode: Mode, better: Ratchet.Report, worse: Ratchet.Report,
                           b: Option<Baseline>, c: Option<Baseline>, releaseComplete: bool)
    requires Stricter(q, p) && Worse(worse, better) && SameBaseline(b, c)
    requires Succeeds(q, mode, worse, c, releaseComplete)
    ensures Succeeds(p, mode, better, b, releaseComplete) <==> Acceptable(better, mode, b)
  {
    FewerFindingsBlockLess(better.findings, worse.findings, p, q);
    FewerFindingsFewerHard(better, worse);
  }

  /**
   * Strengthening never rescues: what passes under a stricter policy, with more findings and a lower score,
   * passed before, provided the policy fingerprint did not change with the policy where a baseline is compared.
   */
  lemma StrengtheningNeverRescues(p: Policy, q: Policy, mode: Mode, better: Ratchet.Report, worse: Ratchet.Report,
                                  baseline: Option<Baseline>, releaseComplete: bool)
    requires Stricter(q, p) && Worse(worse, better)
    requires Ratchets(mode) && baseline.Some? ==>
               better.policyFingerprint == worse.policyFingerprint && better.score <= 100
    requires Succeeds(q, mode, worse, baseline, releaseComplete)
    ensures Succeeds(p, mode, better, baseline, releaseComplete)
  {
    WeakeningPassesIff(p, q, mode, better, worse, baseline, baseline, releaseComplete);
  }

  /**
   * The fingerprint condition is needed: in ratchet mode a clean report fails under any policy with another
   * fingerprint than its baseline's, and tightening to the baseline's own policy rescues it.
   */
  lemma TighteningCanRescueInRatchetMode(p: Policy, q: Policy, report: Ratchet.Report, saved: Value, other: string)
    requires Stricter(q, p) && Ratchet.WellFormed(report) && Ratchet.Serialises(saved, report)
    requires report.score >= q.minimumScore && NoneBlocking(report.findings, q)
    requires other != report.policyFingerprint
    ensures Ratchet.Reads(saved, Ratchet.SnapshotOf(report))
    ensures var baseline := Some(Read(Ratchet.SnapshotOf(report), false));
            && !Succeeds(p, Ratcheting, report.(policyFingerprint := other), baseline, false)
            && Succeeds(q, Ratcheting, report, baseline, false)
  {
    Ratchet.SavedReportReads(saved, report);
  }
}
