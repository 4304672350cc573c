/** Comparing a report with the baseline it must not fall behind. */
module Ratchet {
  import opened Wrappers
  import opened Model
  import opened Sorting
  import opened StrictJson
  import opened Text

  const I32_MIN := -0x8000_0000
  const I32_MAX := 0x7FFF_FFFF
  const I64_MIN := -0x8000_0000_0000_0000
  const I64_MAX := 0x7FFF_FFFF_FFFF_FFFF

  datatype Error =
    | MissingInteger(field: string)
    | OutOfRange(field: string)
    | MissingString(field: string)
    | EmptyString(field: string)
    | MissingArray(field: string)
    | NotAString(field: string)
    | EmptyItem(field: string)
    | InvalidSeverity
    | InvalidHardness
    | InvalidFingerprint(field: string)
    | ScoreRange

  /** The parts of a report the comparison looks at. */
  datatype Report = Report(
    score: int, reportFingerprint: string, inputFingerprint: string, policyFingerprint: string, schemaVersion: string,
    standardVersion: string, caps: seq<string>, findings: seq<Finding>)

  datatype Comparison = Comparison(
    baselineScore: int, allowedDrop: int, passed: bool, scoreDelta: int, reportFingerprint: string,
    inputFingerprint: string, policyFingerprint: string, newCaps: seq<string>, newHardFindings: seq<string>,
    policyChanged: bool)

  // ----- reading required fields -----

  function Get(value: Value, field: string): Option<Value> {
    if value.Object? && field in value.fields then Some(value.fields[field]) else None
  }

  function RequiredI32(value: Value, field: string): Result<int, Error> {
    match Get(value, field)
    case Some(Int(i)) =>
      if !(I64_MIN <= i <= I64_MAX) then Err(MissingInteger(field))
      else if !(I32_MIN <= i <= I32_MAX) then Err(OutOfRange(field))
      else Ok(i)
    case _ => Err(MissingInteger(field))
  }

  predicate IsBlank(s: string) {
    forall i | 0 <= i < |s| :: IsWhitespace(s[i])
  }

  function RequiredString(value: Value, field: string): Result<string, Error> {
    match Get(value, field)
    case Some(String(s)) => if IsBlank(s) then Err(EmptyString(field)) else Ok(s)
    case _ => Err(MissingString(field))
  }

  predicate IsLowerHex(c: char) {
    '0' <= c <= '9' || 'a' <= c <= 'f'
  }

  predicate IsFingerprint(s: string) {
    && "sha256:" <= s && |s| == 71
    && forall i | 7 <= i < 71 :: IsLowerHex(s[i])
  }

  function RequiredFingerprint(value: Value, field: string): Result<string, Error> {
    var s :- RequiredString(value, field);
    if IsFingerprint(s) then Ok(s) else Err(InvalidFingerprint(field))
  }

  function RequiredArray(value: Value, field: string): Result<seq<Value>, Error> {
    match Get(value, field)
    case Some(Array(items)) => Ok(items)
    case _ => Err(MissingArray(field))
  }

  predicate IsSeverity(s: string) {
    s == "critical" || s == "high" || s == "medium" || s == "low" || s == "info"
  }

  predicate IsHard(severity: string) {
    severity == "critical" || severity == "high"
  }

  function ReadItem(item: Value, field: string): Result<string, Error> {
    if !item.String? then Err(NotAString(field))
    else if IsBlank(item.s) then Err(EmptyItem(field))
    else Ok(item.s)
  }

  /** A finding's fingerprint when it is critical or high, and nothing for the milder ones. */
  function ReadFinding(item: Value): Result<Option<string>, Error> {
    var severity :- RequiredString(item, "severity");
    if !IsSeverity(severity) then Err(InvalidSeverity)
    else
      var hardness := Get(item, "hardness");
      if hardness.Some? && hardness.value != String("hard") && hardness.value != String("soft") then
        Err(InvalidHardness)
      else if !IsHard(severity) then Ok(None)
      else
        var fingerprint :- RequiredFingerprint(item, "fingerprint");
        Ok(Some(fingerprint))
  }

  /** Reading stops at the first item that does not read, with that item's error. */
  ghost predicate FirstBad<T>(items: seq<Value>, read: Value -> Result<T, Error>, error: Error) {
    exists i :: && 0 <= i < |items| && read(items[i]) == Err(error)
                && forall j | 0 <= j < i :: read(items[j]).Ok?
  }

  ghost function StringsOf(items: seq<Value>): set<string> {
    set i | 0 <= i < |items| && items[i].String? :: items[i].s
  }

  type Reader = Value -> Result<Option<string>, Error>

  /** Everything that reading the items yields. */
  ghost function Yield(items: seq<Value>, read: Reader): set<string> {
    set i | 0 <= i < |items| && read(items[i]).Ok? && read(items[i]).value.Some? :: read(items[i]).value.value
  }

  ghost function HardOf(items: seq<Value>): set<string> {
    Yield(items, ReadFinding)
  }

  method RequiredStringSet(value: Value, field: string) returns (r: Result<set<string>, Error>)
    ensures RequiredArray(value, field).Err? ==> r == Err(MissingArray(field))
    ensures RequiredArray(value, field).Ok? ==>
              var items := RequiredArray(value, field).value;
              && (r.Ok? <==> forall i | 0 <= i < |items| :: ReadItem(items[i], field).Ok?)
              && (r.Ok? ==> r.value == StringsOf(items))
              && (r.Err? ==> FirstBad(items, item => ReadItem(item, field), r.error))
  {
    var items :- RequiredArray(value, field);
    var out: set<string> := {};
    for i := 0 to |items|
      invariant forall j | 0 <= j < i :: ReadItem(items[j], field).Ok?
      invariant out == StringsOf(items[..i])
    {
      var item := ReadItem(items[i], field);
      if item.Err? {
        return Err(item.error);
      }
      out := out + {item.value};
      StringsOfOneMore(items, i);
    }
    assert items[..|items|] == items;
    r := Ok(out);
  }

  lemma StringsOfOneMore(items: seq<Value>, n: nat)
    requires n < |items| && items[n].String?
    ensures StringsOf(items[..n + 1]) == StringsOf(items[..n]) + {items[n].s}
  {
  }

  method RequiredHardFindingFingerprints(value: Value) returns (r: Result<set<string>, Error>)
    ensures RequiredArray(value, "findings").Err? ==> r == Err(MissingArray("findings"))
    ensures RequiredArray(value, "findings").Ok? ==>
              var items := RequiredArray(value, "findings").value;
              && (r.Ok? <==> forall i | 0 <= i < |items| :: ReadFinding(items[i]).Ok?)
              && (r.Ok? ==> r.value == HardOf(items))
              && (r.Err? ==> FirstBad(items, ReadFinding, r.error))
  {
    var items :- RequiredArray(value, "findings");
    r := ReadEach(items, ReadFinding);
  }

  /** Reads the items in turn and collects what they yield. */
  method ReadEach(items: seq<Value>, read: Reader) returns (r: Result<set<string>, Error>)
    ensures r.Ok? <==> forall i | 0 <= i < |items| :: read(items[i]).Ok?
    ensures r.Ok? ==> r.value == Yield(items, read)
    ensures r.Err? ==> FirstBad(items, read, r.error)
  {
    var out: set<string> := {};
    for i := 0 to |items|
      invariant forall j | 0 <= j < i :: read(items[j]).Ok?
      invariant out == Yield(items[..i], read)
    {
      var finding := read(items[i]);
      if finding.Err? {
        return Err(finding.error);
      }
      YieldOneMore(items, i, read);
      if finding.value.Some? {
        out := out + {finding.value.value};
      }
    }
    assert items[..|items|] == items;
    r := Ok(out);
  }

  lemma YieldOneMore(items: seq<Value>, n: nat, read: Reader)
    requires n < |items| && read(items[n]).Ok?
    ensures var last := read(items[n]).value;
            Yield(items[..n + 1], read) == Yield(items[..n], read) + if last.Some? then {last.value} else {}
  {
    var upTo, before := items[..n + 1], items[..n];
    forall s | s in Yield(before, read) ensures s in Yield(upTo, read) {
      var i :| 0 <= i < n && read(before[i]) == Ok(Some(s));
      assert upTo[i] == before[i];
    }
    if read(items[n]).value.Some? {
      assert upTo[n] == items[n];
    }
    forall s | s in Yield(upTo, read) ensures s in Yield(before, read) || read(items[n]) == Ok(Some(s)) {
      var i :| 0 <= i < n + 1 && read(upTo[i]) == Ok(Some(s));
      assert i < n ==> before[i] == upTo[i];
    }
  }

  // ----- the comparison -----

  /** What a baseline document says, once read. */
  datatype Snapshot = Snapshot(
    score: int, reportFingerprint: string, inputFingerprint: string, policyFingerprint: string, schemaVersion: string,
    standardVersion: string, caps: set<string>, hard: set<string>)

  ghost predicate Reads(v: Value, s: Snapshot) {
    ReadsHeader(v, s) && ReadsItems(v, s.caps, s.hard)
  }

  ghost predicate ReadsHeader(v: Value, s: Snapshot) {
    && RequiredI32(v, "score") == Ok(s.score) && 0 <= s.score <= 100
    && RequiredFingerprint(v, "report_fingerprint") == Ok(s.reportFingerprint)
    && RequiredFingerprint(v, "input_fingerprint") == Ok(s.inputFingerprint)
    && RequiredFingerprint(v, "policy_fingerprint") == Ok(s.policyFingerprint)
    && RequiredString(v, "schema_version") == Ok(s.schemaVersion)
    && RequiredString(v, "standard_version") == Ok(s.standardVersion)
  }

  ghost predicate ReadsItems(v: Value, caps: set<string>, hard: set<string>) {
    && RequiredArray(v, "caps_applied").Ok? && RequiredArray(v, "findings").Ok?
    && var cs, fs := RequiredArray(v, "caps_applied").value, RequiredArray(v, "findings").value;
       && (forall i | 0 <= i < |cs| :: ReadItem(cs[i], "caps_applied").Ok?) && caps == StringsOf(cs)
       && (forall i | 0 <= i < |fs| :: ReadFinding(fs[i]).Ok?) && hard == HardOf(fs)
  }

  ghost function HardSet(report: Report): set<string> {
    set i | 0 <= i < |report.findings| && IsHard(report.findings[i].severity) :: report.findings[i].fingerprint
  }

  ghost function SnapshotOf(report: Report): Snapshot {
    Snapshot(report.score, report.reportFingerprint, report.inputFingerprint, report.policyFingerprint,
             report.schemaVersion, report.standardVersion, Elements(report.caps), HardSet(report))
  }

  /** The report does not fall behind: no lower score, no new cap, no new hard finding, same policy and versions. */
  ghost predicate NotBehind(now: Snapshot, base: Snapshot, legacyPolicy: bool) {
    && now.score >= base.score && now.caps <= base.caps && now.hard <= base.hard
    && (now.policyFingerprint == base.policyFingerprint || legacyPolicy)
    && now.schemaVersion == base.schemaVersion && now.standardVersion == base.standardVersion
  }

  ghost predicate HoldsUp(report: Report, base: Snapshot, legacyPolicy: bool) {
    NotBehind(SnapshotOf(report), base, legacyPolicy)
  }

  /** A comparison's verdict and the evidence for it. */
  ghost predicate Compares(c: Comparison, report: Report, base: Snapshot, legacyPolicy: bool) {
    && (c.passed <==> HoldsUp(report, base, legacyPolicy))
    && ListsSet(c.newCaps, Elements(report.caps) - base.caps)
    && ListsSet(c.newHardFindings, HardSet(report) - base.hard)
    && c.scoreDelta == report.score - base.score && c.baselineScore == base.score && c.allowedDrop == 0
    && c.policyChanged == (report.policyFingerprint != base.policyFingerprint && !legacyPolicy)
    && c.reportFingerprint == base.reportFingerprint && c.inputFingerprint == base.inputFingerprint
    && c.policyFingerprint == base.policyFingerprint
  }

  /** `legacyPolicy` is what the compatibility check for old policy fingerprints answers. */
  method CompareReportToValue(report: Report, baseline: Value, legacyPolicy: bool)
    returns (r: Result<Comparison, Error>)
    ensures r.Ok? <==> 0 <= report.score <= 100 && exists base :: Reads(baseline, base)
    ensures r.Ok? ==> forall base | Reads(baseline, base) :: Compares(r.value, report, base, legacyPolicy)
    ensures r.Ok? && r.value.passed <==> Passes(report, baseline, legacyPolicy)
  {
    var base := ReadBaseline(baseline, report.score);
    if base.Err? {
      return Err(base.error);
    }
    var comparison := CompareWith(report, base.value, legacyPolicy);
    SnapshotIsUnique(baseline, base.value);
    PassesBySnapshot(report, baseline, base.value, legacyPolicy);
    r := Ok(comparison);
  }

  method CompareWith(report: Report, base: Snapshot, legacyPolicy: bool) returns (c: Comparison)
    ensures Compares(c, report, base, legacyPolicy)
  {
    var newCaps := Difference(report.caps, base.caps);
    var newHard := NewHardFindings(report, base.hard);
    var policyChanged := base.policyFingerprint != report.policyFingerprint && !legacyPolicy;
    var versions := base.schemaVersion == report.schemaVersion && base.standardVersion == report.standardVersion;
    var delta := report.score - base.score;
    var passed := delta >= 0 && newCaps == [] && newHard == [] && !policyChanged && versions;
    ListsNothing(newCaps, Elements(report.caps), base.caps);
    ListsNothing(newHard, HardSet(report), base.hard);
    c := Comparison(base.score, 0, passed, delta, base.reportFingerprint, base.inputFingerprint,
                    base.policyFingerprint, newCaps, newHard, policyChanged);
  }

  lemma ComparisonIsUnique(c: Comparison, d: Comparison, report: Report, base: Snapshot, legacyPolicy: bool)
    requires Compares(c, report, base, legacyPolicy) && Compares(d, report, base, legacyPolicy)
    ensures c == d
  {
    ListsSetUnique(c.newCaps, d.newCaps, Elements(report.caps) - base.caps);
    ListsSetUnique(c.newHardFindings, d.newHardFindings, HardSet(report) - base.hard);
  }

  lemma ListsNothing(xs: seq<string>, now: set<string>, before: set<string>)
    requires ListsSet(xs, now - before)
    ensures xs == [] <==> now <= before
  {
    if xs != [] {
      assert xs[0] in now - before;
    } else {
      forall x | x in now ensures x in before {
        assert x in xs <==> x in now - before;
      }
    }
  }

  lemma SnapshotIsUnique(baseline: Value, base: Snapshot)
    requires Reads(baseline, base)
    ensures forall other | Reads(baseline, other) :: other == base
  {
  }

  method ReadBaseline(v: Value, score: int) returns (r: Result<Snapshot, Error>)
    ensures r.Ok? ==> Reads(v, r.value)
    ensures r.Ok? <==> 0 <= score <= 100 && exists base :: Reads(v, base)
  {
    var header :- ReadHeader(v, score);
    var caps := RequiredStringSet(v, "caps_applied");
    if caps.Err? {
      return Err(caps.error);
    }
    var hard := RequiredHardFindingFingerprints(v);
    if hard.Err? {
      return Err(hard.error);
    }
    r := Ok(header.(caps := caps.value, hard := hard.value));
    assert ReadsHeader(v, r.value);
    assert Reads(v, r.value);
  }

  method ReadHeader(v: Value, score: int) returns (r: Result<Snapshot, Error>)
    ensures r.Ok? ==> ReadsHeader(v, r.value)
    ensures r.Ok? <==> 0 <= score <= 100 && exists base :: ReadsHeader(v, base)
  {
    var baseScore :- RequiredI32(v, "score");
    if !(0 <= baseScore <= 100) || !(0 <= score <= 100) {
      return Err(ScoreRange);
    }
    var reportFingerprint :- RequiredFingerprint(v, "report_fingerprint");
    var inputFingerprint :- RequiredFingerprint(v, "input_fingerprint");
    var policyFingerprint :- RequiredFingerprint(v, "policy_fingerprint");
    var schemaVersion :- RequiredString(v, "schema_version");
    var standardVersion :- RequiredString(v, "standard_version");
    r := Ok(Snapshot(baseScore, reportFingerprint, inputFingerprint, policyFingerprint, schemaVersion, standardVersion,
                     {}, {}));
    assert ReadsHeader(v, r.value);
  }

  /** The elements of `xs` outside `base`, in order and once each. */
  method Difference(xs: seq<string>, base: set<string>) returns (out: seq<string>)
    ensures ListsSet(out, Elements(xs) - base)
  {
    var unseen: seq<string> := [];
    for i := 0 to |xs|
      invariant forall x :: x in unseen <==> x in xs[..i] && x !in base
    {
      assert xs[..i + 1] == xs[..i] + [xs[i]];
      if xs[i] !in base {
        unseen := unseen + [xs[i]];
      }
    }
    assert xs[..|xs|] == xs;
    out := SortDedup(unseen, StringLe);
    StringLeIsOrder();
    SortDedupSpec(unseen, StringLe);
  }

  method NewHardFindings(report: Report, base: set<string>) returns (out: seq<string>)
    ensures ListsSet(out, HardSet(report) - base)
  {
    var hard: seq<string> := [];
    for i := 0 to |report.findings|
      invariant forall x :: x in hard <==> exists j :: && 0 <= j < i && IsHard(report.findings[j].severity)
                                                       && report.findings[j].fingerprint == x
    {
      if IsHard(report.findings[i].severity) {
        hard := hard + [report.findings[i].fingerprint];
      }
    }
    assert Elements(hard) == HardSet(report);
    out := Difference(hard, base);
  }

  // ----- reports as their own baselines -----

  ghost predicate HasString(v: Value, field: string, s: string) {
    Get(v, field) == Some(String(s))
  }

  /** A saved finding; other members do not matter. */
  ghost predicate SerialisesFinding(v: Value, f: Finding) {
    && HasString(v, "severity", f.severity) && HasString(v, "hardness", f.hardness)
    && HasString(v, "fingerprint", f.fingerprint)
  }

  ghost predicate SerialisesCaps(items: seq<Value>, caps: seq<string>) {
    |items| == |caps| && forall i | 0 <= i < |caps| :: items[i] == String(caps[i])
  }

  ghost predicate SerialisesFindings(items: seq<Value>, findings: seq<Finding>) {
    |items| == |findings| && forall i | 0 <= i < |findings| :: SerialisesFinding(items[i], findings[i])
  }

  /** A saved report; other members do not matter. */
  ghost predicate Serialises(v: Value, report: Report) {
    && Get(v, "score") == Some(Int(report.score))
    && HasString(v, "report_fingerprint", report.reportFingerprint)
    && HasString(v, "input_fingerprint", report.inputFingerprint)
    && HasString(v, "policy_fingerprint", report.policyFingerprint)
    && HasString(v, "schema_version", report.schemaVersion)
    && HasString(v, "standard_version", report.standardVersion)
    && RequiredArray(v, "caps_applied").Ok? && RequiredArray(v, "findings").Ok?
    && SerialisesCaps(RequiredArray(v, "caps_applied").value, report.caps)
    && SerialisesFindings(RequiredArray(v, "findings").value, report.findings)
  }

  ghost predicate WellFormedFinding(f: Finding) {
    && IsSeverity(f.severity) && (f.hardness == "hard" || f.hardness == "soft")
    && (IsHard(f.severity) ==> IsFingerprint(f.fingerprint))
  }

  ghost predicate WellFormed(report: Report) {
    WellFormedHeader(report) && WellFormedItems(report)
  }

  /** The comparison succeeds and passes. */
  ghost predicate Passes(report: Report, baseline: Value, legacyPolicy: bool) {
    0 <= report.score <= 100 && exists base :: Reads(baseline, base) && HoldsUp(report, base, legacyPolicy)
  }

  lemma NotBlank(s: string, i: nat)
    requires i < |s| && !IsWhitespace(s[i])
    ensures !IsBlank(s)
  {
  }

  lemma FingerprintReads(v: Value, field: string, s: string)
    requires HasString(v, field, s)
    ensures RequiredFingerprint(v, field) == Ok(s) <==> IsFingerprint(s)
  {
    if IsFingerprint(s) {
      assert s[0] == "sha256:"[0];
      NotBlank(s, 0);
    }
  }

  lemma SeverityReads(v: Value, s: string)
    requires HasString(v, "severity", s)
    ensures RequiredString(v, "severity").Ok? && IsSeverity(RequiredString(v, "severity").value) <==> IsSeverity(s)
    ensures IsSeverity(s) ==> RequiredString(v, "severity") == Ok(s)
  {
    if IsSeverity(s) {
      assert s[0] in "chmli";
      NotBlank(s, 0);
    }
  }

  ghost predicate ReadsAs(v: Value, f: Finding) {
    && (ReadFinding(v).Ok? <==> WellFormedFinding(f))
    && (WellFormedFinding(f) ==> ReadFinding(v).value == if IsHard(f.severity) then Some(f.fingerprint) else None)
  }

  lemma FindingReads(v: Value, f: Finding)
    requires SerialisesFinding(v, f)
    ensures ReadsAs(v, f)
  {
    SeverityReads(v, f.severity);
    FingerprintReads(v, "fingerprint", f.fingerprint);
  }

  lemma CapsRead(items: seq<Value>, report: Report)
    requires SerialisesCaps(items, report.caps)
    ensures (forall i | 0 <= i < |items| :: ReadItem(items[i], "caps_applied").Ok?)
       <==> (forall i | 0 <= i < |report.caps| :: !IsBlank(report.caps[i]))
    ensures StringsOf(items) == Elements(report.caps)
  {
  }

  lemma FindingsRead(items: seq<Value>, report: Report)
    requires SerialisesFindings(items, report.findings)
    ensures (forall i | 0 <= i < |items| :: ReadFinding(items[i]).Ok?)
       <==> (forall i | 0 <= i < |report.findings| :: WellFormedFinding(report.findings[i]))
    ensures (forall i | 0 <= i < |report.findings| :: WellFormedFinding(report.findings[i])) ==>
              HardOf(items) == HardSet(report)
  {
    forall i | 0 <= i < |items|
      ensures ReadsAs(items[i], report.findings[i])
    {
      FindingReads(items[i], report.findings[i]);
    }
    if forall i | 0 <= i < |report.findings| :: WellFormedFinding(report.findings[i]) {
      assert HardOf(items) == HardSet(report);
    }
  }

  /** A saved report can be a baseline exactly when it is well formed, and then says what the report says. */
  lemma SavedReportReads(v: Value, report: Report)
    requires Serialises(v, report)
    ensures WellFormed(report) ==> Reads(v, SnapshotOf(report))
    ensures (exists base :: Reads(v, base)) ==> WellFormed(report)
  {
    HeaderReads(v, report);
    ItemsRead(v, report);
  }

  ghost predicate WellFormedHeader(report: Report) {
    && 0 <= report.score <= 100
    && IsFingerprint(report.reportFingerprint) && IsFingerprint(report.inputFingerprint)
    && IsFingerprint(report.policyFingerprint)
    && !IsBlank(report.schemaVersion) && !IsBlank(report.standardVersion)
  }

  lemma HeaderReads(v: Value, report: Report)
    requires Serialises(v, report)
    ensures WellFormedHeader(report) ==> ReadsHeader(v, SnapshotOf(report))
    ensures (exists base :: ReadsHeader(v, base)) ==> WellFormedHeader(report)
  {
    FingerprintReads(v, "report_fingerprint", report.reportFingerprint);
    FingerprintReads(v, "input_fingerprint", report.inputFingerprint);
    FingerprintReads(v, "policy_fingerprint", report.policyFingerprint);
  }

  ghost predicate WellFormedItems(report: Report) {
    && (forall i | 0 <= i < |report.caps| :: !IsBlank(report.caps[i]))
    && (forall i | 0 <= i < |report.findings| :: WellFormedFinding(report.findings[i]))
  }

  lemma ItemsRead(v: Value, report: Report)
    requires RequiredArray(v, "caps_applied").Ok? && RequiredArray(v, "findings").Ok?
    requires SerialisesCaps(RequiredArray(v, "caps_applied").value, report.caps)
    requires SerialisesFindings(RequiredArray(v, "findings").value, report.findings)
    ensures WellFormedItems(report) ==> ReadsItems(v, Elements(report.caps), HardSet(report))
    ensures forall caps, hard | ReadsItems(v, caps, hard) :: WellFormedItems(report)
  {
    CapsRead(RequiredArray(v, "caps_applied").value, report);
    FindingsRead(RequiredArray(v, "findings").value, report);
  }

  lemma PassesBySnapshot(report: Report, v: Value, base: Snapshot, legacyPolicy: bool)
    requires Reads(v, base)
    ensures Passes(report, v, legacyPolicy) <==> 0 <= report.score <= 100 && HoldsUp(report, base, legacyPolicy)
  {
  }

  /** A report passes against itself exactly when it is well formed. */
  lemma RatchetIsReflexive(v: Value, report: Report, legacyPolicy: bool)
    requires Serialises(v, report)
    ensures Passes(report, v, legacyPolicy) <==> WellFormed(report)
  {
    SavedReportReads(v, report);
    if WellFormed(report) {
      PassesBySnapshot(report, v, SnapshotOf(report), legacyPolicy);
    }
  }

  lemma PassesHoldsUp(report: Report, v: Value, base: Report, legacyPolicy: bool)
    requires Serialises(v, base) && WellFormed(base)
    ensures Passes(report, v, legacyPolicy)
       <==> 0 <= report.score <= 100 && HoldsUp(report, SnapshotOf(base), legacyPolicy)
  {
    SavedReportReads(v, base);
    PassesBySnapshot(report, v, SnapshotOf(base), legacyPolicy);
  }

  lemma PassedBaselineIsWellFormed(report: Report, v: Value, base: Report, legacyPolicy: bool)
    requires Serialises(v, base) && Passes(report, v, legacyPolicy)
    ensures WellFormed(base) && 0 <= report.score <= 100 && HoldsUp(report, SnapshotOf(base), legacyPolicy)
  {
    SavedReportReads(v, base);
    PassesHoldsUp(report, v, base, legacyPolicy);
  }

  /** `first` saved as `v`, `second` saved as `w`: passing twice in a row is passing against the first. */
  lemma RatchetIsTransitive(first: Report, v: Value, second: Report, w: Value, third: Report)
    requires Serialises(v, first) && Serialises(w, second)
    requires Passes(second, v, false) && Passes(third, w, false)
    ensures Passes(third, v, false)
  {
    PassedBaselineIsWellFormed(second, v, first, false);
    PassedBaselineIsWellFormed(third, w, second, false);
    PassesHoldsUp(third, v, first, false);
  }

  /** Each report is saved, and the next one passes against it. */
  ghost predicate Chain(reports: seq<Report>, saved: seq<Value>, legacy: seq<bool>) {
    && |saved| == |reports| && |legacy| == |reports|
    && forall i | 0 <= i < |reports| :: Link(reports, saved, legacy, i)
  }

  ghost predicate Link(reports: seq<Report>, saved: seq<Value>, legacy: seq<bool>, i: nat)
    requires |saved| == |reports| && |legacy| == |reports| && i < |reports|
  {
    Serialises(saved[i], reports[i]) && (i > 0 ==> Passes(reports[i], saved[i - 1], legacy[i]))
  }

  /** The comparison at the end of a step, on the reports themselves. */
  lemma ChainStep(reports: seq<Report>, saved: seq<Value>, legacy: seq<bool>, j: nat)
    requires Chain(reports, saved, legacy) && 0 < j < |reports|
    ensures HoldsUp(reports[j], SnapshotOf(reports[j - 1]), legacy[j])
  {
    assert Link(reports, saved, legacy, j - 1) && Link(reports, saved, legacy, j);
    PassedBaselineIsWellFormed(reports[j], saved[j - 1], reports[j - 1], legacy[j]);
  }

  ghost predicate StepHolds(snapshots: seq<Snapshot>, legacy: seq<bool>, k: nat)
    requires |legacy| == |snapshots| && 0 < k < |snapshots|
  {
    NotBehind(snapshots[k], snapshots[k - 1], legacy[k])
  }

  lemma {:induction false} NeverBehind(snapshots: seq<Snapshot>, legacy: seq<bool>, i: nat, j: nat)
    requires |legacy| == |snapshots| && i <= j < |snapshots|
    requires forall k | 0 < k < |snapshots| :: StepHolds(snapshots, legacy, k)
    ensures NotBehind(snapshots[j], snapshots[i], exists k :: i < k <= j && legacy[k])
    decreases j
  {
    if i < j {
      NeverBehind(snapshots, legacy, i, j - 1);
      assert StepHolds(snapshots, legacy, j);
    }
  }

  /**
   * Along any run of passing comparisons nothing is lost, even where old policy fingerprints were let
   * through: the score never falls, every cap and hard finding was there from the start, and the policy is
   * the first one's unless an old fingerprint was let through on the way.
   */
  lemma ChainNeverFallsBack(reports: seq<Report>, saved: seq<Value>, legacy: seq<bool>, i: nat, j: nat)
    requires Chain(reports, saved, legacy) && i <= j < |reports|
    ensures HoldsUp(reports[j], SnapshotOf(reports[i]), exists k :: i < k <= j && legacy[k])
  {
    var snapshots := seq(|reports|, k requires 0 <= k < |reports| => SnapshotOf(reports[k]));
    forall k | 0 < k < |snapshots| ensures StepHolds(snapshots, legacy, k) {
      ChainStep(reports, saved, legacy, k);
    }
    NeverBehind(snapshots, legacy, i, j);
  }

  /** With one policy, a report that passes against the latest baseline passes against every earlier one. */
  lemma ChainPassesAgainstAll(reports: seq<Report>, saved: seq<Value>, legacy: seq<bool>, i: nat, j: nat)
    requires Chain(reports, saved, legacy) && i < j < |reports|
    requires forall k | i < k <= j :: !legacy[k]
    ensures Passes(reports[j], saved[i], false)
  {
    ChainNeverFallsBack(reports, saved, legacy, i, j);
    EarlierIsBaseline(reports, saved, legacy, i);
    EarlierIsBaseline(reports, saved, legacy, j - 1);
    LaterScoreIsValid(reports, saved, legacy, j);
    PassesHoldsUp(reports[j], saved[i], reports[i], false);
  }

  lemma EarlierIsBaseline(reports: seq<Report>, saved: seq<Value>, legacy: seq<bool>, i: nat)
    requires Chain(reports, saved, legacy) && i + 1 < |reports|
    ensures Serialises(saved[i], reports[i]) && WellFormed(reports[i])
  {
    var j := i + 1;
    assert Link(reports, saved, legacy, j - 1) && Link(reports, saved, legacy, j);
    PassedBaselineIsWellFormed(reports[j], saved[i], reports[i], legacy[j]);
  }

  lemma LaterScoreIsValid(reports: seq<Report>, saved: seq<Value>, legacy: seq<bool>, j: nat)
    requires Chain(reports, saved, legacy) && 0 < j < |reports|
    ensures 0 <= reports[j].score <= 100
  {
    assert Link(reports, saved, legacy, j);
  }

  lemma BetterReportHoldsUp(worse: Report, better: Report, base: Snapshot, legacyPolicy: bool)
    requires HoldsUp(worse, base, legacyPolicy) && worse.score <= better.score
    requires Elements(better.caps) <= Elements(worse.caps) && HardSet(better) <= HardSet(worse)
    requires better.policyFingerprint == worse.policyFingerprint
    requires better.schemaVersion == worse.schemaVersion && better.standardVersion == worse.standardVersion
    ensures HoldsUp(better, base, legacyPolicy)
  {
  }

  /** Against one baseline, a report with a higher score and fewer caps and hard findings passes too. */
  lemma BetterReportPasses(worse: Report, better: Report, baseline: Value, legacyPolicy: bool)
    requires Passes(worse, baseline, legacyPolicy)
    requires worse.score <= better.score <= 100
    requires Elements(better.caps) <= Elements(worse.caps) && HardSet(better) <= HardSet(worse)
    requires better.policyFingerprint == worse.policyFingerprint
    requires better.schemaVersion == worse.schemaVersion && better.standardVersion == worse.standardVersion
    ensures Passes(better, baseline, legacyPolicy)
  {
    var base :| Reads(baseline, base) && HoldsUp(worse, base, legacyPolicy);
    BetterReportHoldsUp(worse, better, base, legacyPolicy);
  }
}
