/** What the ratchet and the assessment make of findings and documents, with severities and formats written out. */
module HardFindings {
  import opened Wrappers
  import opened Model
  import opened Outcome
  import opened Sorting
  import opened StrictJson
  import opened Text
  import Ratchet

  // ----- formats -----

  const HEX := "0123456789abcdef"

  lemma HexIff(c: char)
    ensures Ratchet.IsLowerHex(c) <==> c in HEX
  {
    if '0' <= c <= '9' {
      assert HEX[c as int - '0' as int] == c;
    }
    if 'a' <= c <= 'f' {
      assert HEX[10 + (c as int - 'a' as int)] == c;
    }
  }

  /** A fingerprint is the algorithm's name, a colon, and 64 lower-case hexadecimal digits. */
  lemma FingerprintIff(s: string)
    ensures Ratchet.IsFingerprint(s)
       <==> exists digits: string :: && s == "sha256:" + digits && |digits| == 64
                                     && forall c | c in digits :: c in HEX
  {
    if Ratchet.IsFingerprint(s) {
      var digits := s[7..];
      assert s == "sha256:" + digits;
      forall c | c in digits ensures c in HEX {
        var i :| 0 <= i < |digits| && digits[i] == c;
        assert s[i + 7] == c;
        HexIff(c);
      }
    }
    if digits: string :| s == "sha256:" + digits && |digits| == 64 && forall c | c in digits :: c in HEX {
      forall i | 7 <= i < 71 ensures Ratchet.IsLowerHex(s[i]) {
        assert s[i] == digits[i - 7] && digits[i - 7] in digits;
        HexIff(s[i]);
      }
    }
  }

  /** The document is an object with this member. */
  ghost predicate HasMember(v: Value, field: string, member: Value) {
    v.Object? && field in v.fields && v.fields[field] == member
  }

  ghost predicate HasVisible(s: string) {
    exists i :: 0 <= i < |s| && !IsWhitespace(s[i])
  }

  /** A required integer reads exactly if it is there and fits 32 bits. */
  lemma IntegerReadsIff(v: Value, field: string, i: int)
    ensures Ratchet.RequiredI32(v, field) == Ok(i)
       <==> HasMember(v, field, Int(i)) && -2147483648 <= i <= 2147483647
    ensures Ratchet.RequiredI32(v, field) == Err(Ratchet.OutOfRange(field))
       <==> exists j :: && HasMember(v, field, Int(j)) && !(-2147483648 <= j <= 2147483647)
                        && -9223372036854775808 <= j <= 9223372036854775807
  {
    if j :| HasMember(v, field, Int(j)) {
      assert Ratchet.Get(v, field) == Some(Int(j));
    }
  }

  /** A required string reads exactly if it is there and not blank. */
  lemma StringReadsIff(v: Value, field: string, s: string)
    ensures Ratchet.RequiredString(v, field) == Ok(s) <==> HasMember(v, field, String(s)) && HasVisible(s)
    ensures Ratchet.RequiredString(v, field) == Err(Ratchet.EmptyString(field))
       <==> exists t :: HasMember(v, field, String(t)) && !HasVisible(t)
  {
    if t :| HasMember(v, field, String(t)) {
      assert Ratchet.Get(v, field) == Some(String(t));
      assert Ratchet.IsBlank(t) <==> !HasVisible(t);
    }
  }

  ghost predicate Fingerprint(s: string) {
    exists digits: string :: s == "sha256:" + digits && |digits| == 64 && forall c | c in digits :: c in HEX
  }

  lemma FingerprintReadsIff(v: Value, field: string, s: string)
    ensures Ratchet.RequiredFingerprint(v, field) == Ok(s) <==> HasMember(v, field, String(s)) && Fingerprint(s)
  {
    StringReadsIff(v, field, s);
    FingerprintIff(s);
    if Fingerprint(s) {
      assert s[0] == 's';
    }
  }

  lemma ArrayReadsIff(v: Value, field: string, items: seq<Value>)
    ensures Ratchet.RequiredArray(v, field) == Ok(items) <==> HasMember(v, field, Array(items))
  {
  }

  // ----- findings of a saved report -----

  ghost predicate IsSeverityName(s: string) {
    s in ["critical", "high", "medium", "low", "info"]
  }

  ghost predicate SaysHardnessWell(item: Value) {
    item.Object? && ("hardness" in item.fields ==>
                       item.fields["hardness"] == String("hard") || item.fields["hardness"] == String("soft"))
  }

  /** A finding reads as a hard one exactly if it is critical or high and has a fingerprint. */
  lemma HardFindingReadsIff(item: Value, s: string)
    ensures Ratchet.ReadFinding(item) == Ok(Some(s))
       <==> && (HasMember(item, "severity", String("critical")) || HasMember(item, "severity", String("high")))
            && SaysHardnessWell(item) && HasMember(item, "fingerprint", String(s)) && Fingerprint(s)
  {
    SeverityMember(item, "critical");
    SeverityMember(item, "high");
    FingerprintReadsIff(item, "fingerprint", s);
  }

  /** ...and as a soft one exactly if it is milder, whatever its fingerprint. */
  lemma SoftFindingReadsIff(item: Value)
    ensures Ratchet.ReadFinding(item) == Ok(None)
       <==> && (HasMember(item, "severity", String("medium")) || HasMember(item, "severity", String("low"))
                || HasMember(item, "severity", String("info")))
            && SaysHardnessWell(item)
  {
    SeverityMember(item, "medium");
    SeverityMember(item, "low");
    SeverityMember(item, "info");
  }

  lemma SeverityMember(item: Value, s: string)
    requires s != "" && 'a' <= s[0] <= 'z'
    ensures Ratchet.RequiredString(item, "severity") == Ok(s) <==> HasMember(item, "severity", String(s))
  {
    StringReadsIff(item, "severity", s);
    assert !IsWhitespace(s[0]);
  }

  /** The document lists a critical or high finding with this fingerprint. */
  ghost predicate ListsHard(v: Value, s: string) {
    exists items, i :: && HasMember(v, "findings", Array(items)) && 0 <= i < |items|
                       && (HasMember(items[i], "severity", String("critical"))
                           || HasMember(items[i], "severity", String("high")))
                       && HasMember(items[i], "fingerprint", String(s))
  }

  ghost predicate ListsCap(v: Value, cap: string) {
    exists items, i :: HasMember(v, "caps_applied", Array(items)) && 0 <= i < |items| && items[i] == String(cap)
  }

  /** What a baseline document says, once read. */
  lemma BaselineSays(v: Value, base: Ratchet.Snapshot)
    requires Ratchet.Reads(v, base)
    ensures HasMember(v, "score", Int(base.score)) && 0 <= base.score <= 100
    ensures HasMember(v, "policy_fingerprint", String(base.policyFingerprint))
    ensures HasMember(v, "schema_version", String(base.schemaVersion))
    ensures HasMember(v, "standard_version", String(base.standardVersion))
    ensures forall s :: s in base.hard <==> ListsHard(v, s)
    ensures forall cap :: cap in base.caps <==> ListsCap(v, cap)
  {
    HeaderSays(v, base);
    forall s ensures s in base.hard <==> ListsHard(v, s) {
      HardSays(v, base, s);
    }
    forall cap ensures cap in base.caps <==> ListsCap(v, cap) {
      CapsSay(v, base, cap);
    }
  }

  lemma HeaderSays(v: Value, base: Ratchet.Snapshot)
    requires Ratchet.Reads(v, base)
    ensures HasMember(v, "score", Int(base.score)) && 0 <= base.score <= 100
    ensures HasMember(v, "policy_fingerprint", String(base.policyFingerprint))
    ensures HasMember(v, "schema_version", String(base.schemaVersion))
    ensures HasMember(v, "standard_version", String(base.standardVersion))
  {
    IntegerReadsIff(v, "score", base.score);
    FingerprintReadsIff(v, "policy_fingerprint", base.policyFingerprint);
    StringReadsIff(v, "schema_version", base.schemaVersion);
    StringReadsIff(v, "standard_version", base.standardVersion);
  }

  lemma HardSays(v: Value, base: Ratchet.Snapshot, s: string)
    requires Ratchet.Reads(v, base)
    ensures s in base.hard <==> ListsHard(v, s)
  {
    var items := Ratchet.RequiredArray(v, "findings").value;
    ArrayReadsIff(v, "findings", items);
    if s in base.hard {
      var i :| 0 <= i < |items| && Ratchet.ReadFinding(items[i]) == Ok(Some(s));
      HardFindingReadsIff(items[i], s);
    }
    if ListsHard(v, s) {
      var i :| && 0 <= i < |items|
               && (HasMember(items[i], "severity", String("critical"))
                   || HasMember(items[i], "severity", String("high")))
               && HasMember(items[i], "fingerprint", String(s));
      HardIsRead(items[i], s);
      assert Ratchet.ReadFinding(items[i]) == Ok(Some(s));
    }
  }

  lemma HardIsRead(item: Value, s: string)
    requires Ratchet.ReadFinding(item).Ok? && HasMember(item, "fingerprint", String(s))
    requires HasMember(item, "severity", String("critical")) || HasMember(item, "severity", String("high"))
    ensures Ratchet.ReadFinding(item) == Ok(Some(s))
  {
    SeverityMember(item, "critical");
    SeverityMember(item, "high");
    assert Ratchet.ReadFinding(item).value.Some?;
    HardFindingReadsIff(item, Ratchet.ReadFinding(item).value.value);
  }

  lemma CapsSay(v: Value, base: Ratchet.Snapshot, cap: string)
    requires Ratchet.Reads(v, base)
    ensures cap in base.caps <==> ListsCap(v, cap)
  {
    var items := Ratchet.RequiredArray(v, "caps_applied").value;
    ArrayReadsIff(v, "caps_applied", items);
  }

  // ----- the comparison -----

  /** The report has a critical or high finding with this fingerprint. */
  ghost predicate ReportsHard(report: Ratchet.Report, s: string) {
    exists f :: && f in report.findings && (f.severity == "critical" || f.severity == "high") && f.fingerprint == s
  }

  /** A hard finding is new if the report has it and the baseline does not list it. */
  ghost predicate NewHard(report: Ratchet.Report, v: Value, s: string) {
    ReportsHard(report, s) && !ListsHard(v, s)
  }

  ghost predicate NewCap(report: Ratchet.Report, v: Value, cap: string) {
    cap in report.caps && !ListsCap(v, cap)
  }

  lemma HardSetIs(report: Ratchet.Report, s: string)
    ensures s in Ratchet.HardSet(report) <==> ReportsHard(report, s)
  {
    if s in Ratchet.HardSet(report) {
      var i :| && 0 <= i < |report.findings| && Ratchet.IsHard(report.findings[i].severity)
               && report.findings[i].fingerprint == s;
      assert report.findings[i] in report.findings;
    }
    if f :| f in report.findings && (f.severity == "critical" || f.severity == "high") && f.fingerprint == s {
      var i :| 0 <= i < |report.findings| && report.findings[i] == f;
      assert Ratchet.IsHard(report.findings[i].severity);
    }
  }

  /**
   * A comparison lists exactly the new hard findings and the new caps, and passes exactly if there are none, the
   * score did not fall, the versions are the same, and the policy is the same or let through.
   */
  lemma ComparisonSays(c: Ratchet.Comparison, report: Ratchet.Report, v: Value, base: Ratchet.Snapshot,
                       legacyPolicy: bool)
    requires Ratchet.Reads(v, base) && Ratchet.Compares(c, report, base, legacyPolicy)
    ensures forall s :: s in c.newHardFindings <==> NewHard(report, v, s)
    ensures forall cap :: cap in c.newCaps <==> NewCap(report, v, cap)
    ensures c.passed
       <==> && c.newHardFindings == [] && c.newCaps == [] && report.score >= base.score
            && HasMember(v, "schema_version", String(report.schemaVersion))
            && HasMember(v, "standard_version", String(report.standardVersion))
            && (HasMember(v, "policy_fingerprint", String(report.policyFingerprint)) || legacyPolicy)
  {
    BaselineSays(v, base);
    forall s ensures s in c.newHardFindings <==> NewHard(report, v, s) {
      HardSetIs(report, s);
      assert s in c.newHardFindings <==> s in Ratchet.HardSet(report) - base.hard;
    }
    forall cap ensures cap in c.newCaps <==> NewCap(report, v, cap) {
      assert cap in c.newCaps <==> cap in Elements(report.caps) - base.caps;
    }
    Ratchet.ListsNothing(c.newCaps, Elements(report.caps), base.caps);
    Ratchet.ListsNothing(c.newHardFindings, Ratchet.HardSet(report), base.hard);
  }

  // ----- the assessment -----

  /** Whatever the policy, a report with a critical or high finding neither passes nor, unless advisory, conforms. */
  lemma CriticalOrHighNeverPasses(a: Assessment, policy: Option<Policy>, scopeMode: string, report: Ratchet.Report,
                                  baseline: Option<Baseline>, releaseComplete: bool, f: Finding)
    requires Outcomes(a, policy, scopeMode, report, baseline, releaseComplete)
    requires f in report.findings
    requires f.severity == "critical" || f.severity == "high" || f.severity in policy.value.failOn
    ensures !a.decision.passed && a.blockers != []
    ensures ModeOf(policy.value) == Some(Advisory) || a.conformance == Blocks
  {
    BlockersEmpty(report.findings, policy.value);
    BlockingFindingBlocks(a, policy, scopeMode, report, baseline, releaseComplete, f);
    var i :| 0 <= i < |report.findings| && report.findings[i] == f;
    assert Blocking(report.findings[i], policy.value);
  }

  /** Findings that are neither critical nor high nor of a failing severity block nothing. */
  lemma MildFindingsDoNotBlock(a: Assessment, policy: Option<Policy>, scopeMode: string, report: Ratchet.Report,
                               baseline: Option<Baseline>, releaseComplete: bool)
    requires Outcomes(a, policy, scopeMode, report, baseline, releaseComplete)
    requires forall f | f in report.findings ::
               f.severity != "critical" && f.severity != "high" && f.severity !in policy.value.failOn
    ensures a.blockers == [] && a.conformance != Blocks && a.decision.hardFindings == 0
  {
    var policyInForce := policy.value;
    forall i | 0 <= i < |report.findings| ensures !Blocking(report.findings[i], policyInForce) {
      assert report.findings[i] in report.findings;
    }
    BlockersEmpty(report.findings, policyInForce);
    HardCountBounds(report.findings, policyInForce.failOn);
  }

  /** What a blocker is called. */
  ghost function NameOfBlocker(f: Finding): string {
    match f.ruleId
    case Some(rule) => rule + " on " + f.path
    case None => f.checkId + " on " + f.path
  }

  ghost function BlockerAt(findings: seq<Finding>, failOn: seq<string>, i: nat): Option<string> {
    if i < |findings| && (findings[i].severity in ["critical", "high"] || findings[i].severity in failOn)
    then Some(NameOfBlocker(findings[i])) else None
  }

  /** The blockers name the critical, high and failing findings in order. */
  lemma BlockersAreNamed(findings: seq<Finding>, policy: Policy)
    ensures Picks(Blockers(findings, policy), |findings|, (i: nat) => BlockerAt(findings, policy.failOn, i))
  {
    var pick: nat -> Option<string> := (i: nat) => BlockerAt(findings, policy.failOn, i);
    BlockersOfPrefix(findings, policy, |findings|, pick);
    assert findings[..|findings|] == findings;
  }

  lemma {:induction false} BlockersOfPrefix(findings: seq<Finding>, policy: Policy, n: nat,
                                            pick: nat -> Option<string>)
    requires n <= |findings| && forall i: nat :: pick(i) == BlockerAt(findings, policy.failOn, i)
    ensures Picks(Blockers(findings[..n], policy), n, pick)
  {
    if n == 0 {
      PicksNothing(pick);
    } else {
      BlockersOfPrefix(findings, policy, n - 1, pick);
      assert findings[..n][..n - 1] == findings[..n - 1];
      var last := if Blocking(findings[n - 1], policy) then [BlockerText(findings[n - 1])] else [];
      assert Blockers(findings[..n], policy) == Blockers(findings[..n - 1], policy) + last;
      PicksOneMore(Blockers(findings[..n - 1], policy), n - 1, pick, Blockers(findings[..n], policy));
    }
  }

  /** The decision counts the findings of a failing severity. */
  lemma {:induction false} HardCountCounts(findings: seq<Finding>, failOn: seq<string>)
    ensures HardCount(findings, failOn) == |set i | 0 <= i < |findings| && findings[i].severity in failOn|
  {
    if findings != [] {
      var n := |findings| - 1;
      HardCountCounts(findings[..n], failOn);
      var before := set i | 0 <= i < n && findings[..n][i].severity in failOn;
      var all := set i | 0 <= i < |findings| && findings[i].severity in failOn;
      assert all == before + (if findings[n].severity in failOn then {n} else {});
      assert n !in before;
    }
  }

  /** The highest level asks for a passing decision on the full scope under at least the standard policy. */
  lemma HighestLevelAsks(a: Assessment, policy: Option<Policy>, scopeMode: string, report: Ratchet.Report,
                         baseline: Option<Baseline>, releaseComplete: bool)
    requires Outcomes(a, policy, scopeMode, report, baseline, releaseComplete)
    ensures a.level == HL3
       <==> && a.decision.passed && scopeMode == "full" && policy.value.mode != Some("advisory")
            && policy.value.minimumScore >= 85
            && "critical" in policy.value.failOn && "high" in policy.value.failOn
    ensures a.level == HL1 <==> policy.value.mode == Some("advisory") || scopeMode != "full"
    ensures a.conformance == Blocks <==> a.blockers != [] && policy.value.mode != Some("advisory")
    ensures a.decision.status == AdvisoryStatus <==> policy.value.mode == Some("advisory")
  {
    ModeNames(policy.value);
    BlockersEmpty(report.findings, policy.value);
  }

  /** The modes by name; without a name the mode is the standard one. */
  lemma ModeNames(policy: Policy)
    ensures ModeOf(policy) == Some(Advisory) <==> policy.mode == Some("advisory")
    ensures ModeOf(policy) == Some(Guarded) <==> policy.mode == Some("guarded")
    ensures ModeOf(policy) == Some(Standard) <==> policy.mode == Some("standard") || policy.mode == None
    ensures ModeOf(policy) == Some(Ratcheting) <==> policy.mode == Some("ratchet")
    ensures ModeOf(policy) == Some(Release) <==> policy.mode == Some("release")
  {
  }

  /** A decision passes exactly under these conditions, with modes and severities written out. */
  lemma DecisionPassesIff(a: Assessment, policy: Option<Policy>, scopeMode: string, report: Ratchet.Report,
                          baseline: Option<Baseline>, releaseComplete: bool)
    requires Outcomes(a, policy, scopeMode, report, baseline, releaseComplete)
    ensures a.decision.passed
       <==> && report.score >= policy.value.minimumScore
            && (forall f | f in report.findings ::
                  f.severity != "critical" && f.severity != "high" && f.severity !in policy.value.failOn)
            && (policy.value.mode == Some("release") ==> releaseComplete)
            && (policy.value.mode == Some("ratchet") ==> baseline.Some?)
            && ((policy.value.mode == Some("ratchet") || policy.value.mode == Some("release")) && baseline.Some? ==>
                  0 <= report.score <= 100 && a.decision.ratchet.Some? && a.decision.ratchet.value.passed)
  {
    ModeNames(policy.value);
    NoneBlockingIff(report.findings, policy.value);
  }

  lemma NoneBlockingIff(findings: seq<Finding>, policy: Policy)
    ensures NoneBlocking(findings, policy)
       <==> forall f | f in findings :: f.severity != "critical" && f.severity != "high" && f.severity !in policy.failOn
  {
    if NoneBlocking(findings, policy) {
      forall f | f in findings
        ensures f.severity != "critical" && f.severity != "high" && f.severity !in policy.failOn
      {
        var i :| 0 <= i < |findings| && findings[i] == f;
        assert !Blocking(findings[i], policy);
      }
    }
  }

  // ----- decisions without a baseline, and the default policy -----

  /** The digest that stands for a missing one: no digit of it is other than zero. */
  lemma MissingDigestIsZero()
    ensures Fingerprint(MissingSha256()) && forall i | 7 <= i < |MissingSha256()| :: MissingSha256()[i] == '0'
  {
    Zeros(64);
    var digits := Repeat('0', 64);
    var missing := MissingSha256();
    assert missing == "sha256:" + digits;
    HexIff('0');
    forall i | 7 <= i < |missing| ensures missing[i] == '0' {
      assert missing[i] == digits[i - 7] && digits[i - 7] in digits;
    }
  }

  lemma {:induction false} Zeros(n: nat)
    ensures |Repeat('0', n)| == n && forall c | c in Repeat('0', n) :: c == '0'
  {
    if n > 0 {
      Zeros(n - 1);
    }
  }

  /** Without a baseline a decision records the report's own score, no difference, and digests of nothing. */
  lemma OwnComparison(d: Decision, policy: Policy, mode: Mode, report: Ratchet.Report, releaseComplete: bool)
    requires Decides(d, policy, mode, report, None, releaseComplete)
    ensures var c := d.ratchet.value;
            && c.baselineScore == report.score && c.allowedDrop == 0 && c.scoreDelta == 0 && !c.policyChanged
            && c.newCaps == [] && c.newHardFindings == []
            && c.reportFingerprint == c.inputFingerprint == c.policyFingerprint == MissingSha256()
            && (c.passed <==> report.score >= policy.minimumScore && d.hardFindings == 0 && mode != Ratcheting)
  {
  }

  /** Without a policy file, 85 points and no critical or high finding are asked for. */
  lemma DefaultPolicyAsks(p: Policy, cliFailOn: seq<string>, mode: Mode)
    requires InForce(p, DefaultPolicy(), None, cliFailOn, mode)
    ensures p.minimumScore == 85
    ensures forall s :: s in p.failOn <==> s in ["critical", "high"] || s in cliFailOn
    ensures forall s :: s in p.advisoryOn <==> s in ["medium", "low"] && s !in cliFailOn
  {
    var file := DefaultPolicy();
    assert file.failOn == ["critical", "high"] && file.advisoryOn == ["medium", "low"];
    forall s ensures s in p.failOn <==> s in file.failOn || s in cliFailOn {
      assert s in p.failOn <==> s in Elements(file.failOn) + Elements(cliFailOn);
    }
    forall s ensures s in p.advisoryOn <==> s in file.advisoryOn && s !in file.failOn && s !in cliFailOn {
      assert s in p.advisoryOn <==> s in Elements(file.advisoryOn) - Elements(file.failOn) - Elements(cliFailOn);
    }
  }

  /** A policy file's severities are acceptable exactly if they are all among the five names. */
  lemma SeveritiesAccepted(severities: seq<string>)
    ensures AllSeverities(severities) <==> forall s | s in severities :: IsSeverityName(s)
  {
    if AllSeverities(severities) {
      forall s | s in severities ensures IsSeverityName(s) {
        var i :| 0 <= i < |severities| && severities[i] == s;
        assert Ratchet.IsSeverity(severities[i]);
        SeverityNameIff(s);
      }
    }
    if forall s | s in severities :: IsSeverityName(s) {
      forall i | 0 <= i < |severities| ensures Ratchet.IsSeverity(severities[i]) {
        assert severities[i] in severities;
        SeverityNameIff(severities[i]);
      }
    }
  }

  lemma SeverityNameIff(s: string)
    ensures Ratchet.IsSeverity(s) <==> IsSeverityName(s)
  {
  }

  /** Score floors are acceptable from 0 through 100, and the higher one counts. */
  lemma ScoreFloor(policy: int, requested: Option<int>, floor: int)
    ensures EffectiveScoreFloor(policy, requested) == Ok(floor)
       <==> && 0 <= policy <= 100 && (requested.Some? ==> 0 <= requested.value <= 100)
            && floor == if requested.Some? && requested.value >= policy then requested.value else policy
  {
  }
}
