/** What a proof verification can complain about, and the verdict its texts are classified into. */
module ProofVerdict {
  import opened Wrappers
  import opened Text

  datatype Issue =
    | PlanDigestMismatch(evidence: string, current: string)
    | ChangedPathsDiffer
    | NoUniqueInventory
    | CommandInventoryMismatch
    | ManifestMismatch(name: string, recorded: Option<string>, now: Option<string>)
    | UnverifiedCoverage
    | DuplicateReceipt(path: string)
    | MissingReceipt(path: string)
    | UnexpectedRun(lane: string, command: string)
    | DuplicateRun(path: string)
    | ReceiptDigestMismatch(path: string, evidence: string, actual: string)
    | MissingReceiptDigest(path: string)
    | CommandDigestMismatch(lane: string)
    | MissingLog(path: string)
    | LogDigestMismatch(path: string)
    | MissingLogPath(path: string)
    | UnverifiedReceiptCoverage(path: string)
    | ExitStatus(path: string, code: string)
    | ReceiptPlanMismatch(path: string)
    | MissingRun(lane: string, command: string)

  function OrMissing(value: Option<string>): string {
    if value.Some? then value.value else "missing"
  }

  function Quoted(s: string): string {
    "`" + s + "`"
  }

  /** An issue's text up to the words the classifier looks for, those words, and the rest. */
  function Lead(issue: Issue): string {
    match issue
    case PlanDigestMismatch(_, _) => "plan digest "
    case ChangedPathsDiffer => "evidence changed_paths do not match plan changed_paths"
    case CommandInventoryMismatch => "evidence command inventory "
    case ManifestMismatch(_, _, _) => "manifest fingerprint "
    case DuplicateReceipt(path) => "duplicate receipt inventory entry " + Quoted(path)
    case UnexpectedRun(lane, command) => "unexpected receipt run " + Quoted(lane) + ": " + Quoted(command)
    case DuplicateRun(path) => "duplicate receipt run in " + Quoted(path)
    case ReceiptDigestMismatch(_, _, _) => "receipt digest "
    case CommandDigestMismatch(_) => "command digest "
    case LogDigestMismatch(_) => "log digest "
    case MissingLogPath(path) => "receipt " + Quoted(path) + " "
    case ExitStatus(path, _) => "receipt " + Quoted(path) + " "
    case ReceiptPlanMismatch(path) => "receipt " + Quoted(path) + " plan digest "
    case _ => ""
  }

  function Keyword(issue: Issue): string {
    if issue.UnverifiedCoverage? || issue.UnverifiedReceiptCoverage? then "unverified rule coverage"
    else if NotesAbsence(issue) then "missing"
    else if NotesMismatch(issue) then "mismatch"
    else if issue.ExitStatus? then "exited with status"
    else ""
  }

  function Details(issue: Issue): string {
    match issue
    case PlanDigestMismatch(evidence, current) => ": evidence " + Quoted(evidence) + " vs current " + Quoted(current)
    case NoUniqueInventory => " unique nonempty planned run inventory"
    case ManifestMismatch(name, recorded, now) =>
      " for " + name + ": evidence " + Quoted(OrMissing(recorded)) + " vs current " + Quoted(OrMissing(now))
    case UnverifiedCoverage => " in imported evidence index"
    case MissingReceipt(path) => " proof receipt " + Quoted(path)
    case ReceiptDigestMismatch(path, evidence, actual) =>
      " for " + Quoted(path) + ": evidence " + Quoted(evidence) + " vs actual " + Quoted(actual)
    case MissingReceiptDigest(path) => " receipt digest entry for " + Quoted(path)
    case CommandDigestMismatch(lane) => " for " + Quoted(lane)
    case MissingLog(path) => " proof log " + Quoted(path)
    case LogDigestMismatch(path) => " for " + Quoted(path)
    case MissingLogPath(_) => " log path"
    case UnverifiedReceiptCoverage(path) => " in imported receipt " + Quoted(path)
    case ExitStatus(_, code) => " " + code
    case MissingRun(lane, command) => " required receipt for " + Quoted(lane) + ": " + Quoted(command)
    case _ => ""
  }

  function IssueText(issue: Issue): string {
    Lead(issue) + Keyword(issue) + Details(issue)
  }

  function Texts(issues: seq<Issue>): seq<string> {
    seq(|issues|, i requires 0 <= i < |issues| => IssueText(issues[i]))
  }

  /** From best to worst. */
  datatype Verdict = Pass | Advisory | Incomplete | Stale | Blocked

  function Badness(v: Verdict): nat {
    match v
    case Pass => 0
    case Advisory => 1
    case Incomplete => 2
    case Stale => 3
    case Blocked => 4
  }

  function Worse(a: Verdict, b: Verdict): Verdict {
    if Badness(a) < Badness(b) then b else a
  }

  predicate AnyContains(texts: seq<string>, pattern: string) {
    texts != [] && (Contains(texts[0], pattern) || AnyContains(texts[1..], pattern))
  }

  /** One pass over all texts for each pattern, worst verdict first. */
  function ClassifyVerdict(texts: seq<string>): Verdict {
    if texts == [] then Pass
    else if AnyContains(texts, "unverified rule coverage") then Blocked
    else if AnyContains(texts, "missing") || AnyContains(texts, "missing required") then Blocked
    else if AnyContains(texts, "mismatch") || AnyContains(texts, "stale") then Stale
    else if AnyContains(texts, "exited with status") then Incomplete
    else Advisory
  }

  lemma {:induction false} AnyContainsConcat(a: seq<string>, b: seq<string>, pattern: string)
    ensures AnyContains(a + b, pattern) <==> AnyContains(a, pattern) || AnyContains(b, pattern)
  {
    if a == [] {
      assert a + b == b;
    } else {
      assert (a + b)[1..] == a[1..] + b;
      AnyContainsConcat(a[1..], b, pattern);
    }
  }

  /** Joining two lists of issues gives the worse of their verdicts. */
  lemma VerdictOfConcat(a: seq<string>, b: seq<string>)
    ensures ClassifyVerdict(a + b) == Worse(ClassifyVerdict(a), ClassifyVerdict(b))
  {
    AnyContainsConcat(a, b, "unverified rule coverage");
    AnyContainsConcat(a, b, "missing");
    AnyContainsConcat(a, b, "missing required");
    AnyContainsConcat(a, b, "mismatch");
    AnyContainsConcat(a, b, "stale");
    AnyContainsConcat(a, b, "exited with status");
  }

  /** The least bad verdict an issue of a kind allows. */
  function Floor(issue: Issue): Verdict {
    if issue.UnverifiedCoverage? || issue.UnverifiedReceiptCoverage? || NotesAbsence(issue) then Blocked
    else if NotesMismatch(issue) then Stale
    else if issue.ExitStatus? then Incomplete
    else Advisory
  }

  predicate NotesAbsence(issue: Issue) {
    issue.NoUniqueInventory? || issue.MissingReceipt? || issue.MissingReceiptDigest? || issue.MissingLog?
    || issue.MissingLogPath? || issue.MissingRun?
  }

  predicate NotesMismatch(issue: Issue) {
    || issue.PlanDigestMismatch? || issue.CommandInventoryMismatch? || issue.ManifestMismatch?
    || issue.ReceiptDigestMismatch?
    || issue.CommandDigestMismatch? || issue.LogDigestMismatch? || issue.ReceiptPlanMismatch?
  }

  lemma OneTextVerdict(text: string)
    ensures ClassifyVerdict([text]) != Pass
    ensures Contains(text, "missing") ==> ClassifyVerdict([text]) == Blocked
    ensures Contains(text, "unverified rule coverage") ==> ClassifyVerdict([text]) == Blocked
    ensures Contains(text, "mismatch") ==> Badness(ClassifyVerdict([text])) >= Badness(Stale)
    ensures Contains(text, "exited with status") ==> Badness(ClassifyVerdict([text])) >= Badness(Incomplete)
  {
  }

  lemma KeywordVerdict(text: string, issue: Issue)
    requires Contains(text, Keyword(issue))
    ensures Badness(ClassifyVerdict([text])) >= Badness(Floor(issue))
  {
    OneTextVerdict(text);
  }

  lemma OneIssueVerdict(issue: Issue)
    ensures Badness(ClassifyVerdict([IssueText(issue)])) >= Badness(Floor(issue))
  {
    ContainsInConcat(Lead(issue), Keyword(issue), Details(issue));
    KeywordVerdict(IssueText(issue), issue);
  }

  /** The verdict of a list is at least as bad as that of each of its texts. */
  lemma VerdictCoversEach(texts: seq<string>, i: nat)
    requires i < |texts|
    ensures Badness(ClassifyVerdict(texts)) >= Badness(ClassifyVerdict([texts[i]]))
  {
    assert texts == texts[..i] + ([texts[i]] + texts[i + 1..]);
    VerdictOfConcat([texts[i]], texts[i + 1..]);
    VerdictOfConcat(texts[..i], [texts[i]] + texts[i + 1..]);
  }

  /** However its lanes, commands and paths are called, an issue keeps the verdict at its kind's floor or worse. */
  lemma VerdictRespectsFloors(issues: seq<Issue>, i: nat)
    requires i < |issues|
    ensures Badness(ClassifyVerdict(Texts(issues))) >= Badness(Floor(issues[i]))
  {
    VerdictCoversEach(Texts(issues), i);
    OneIssueVerdict(issues[i]);
  }

  /** Only an empty list passes. */
  lemma PassIffNoIssues(issues: seq<Issue>)
    ensures ClassifyVerdict(Texts(issues)) == Pass <==> issues == []
  {
    assert |Texts(issues)| == |issues|;
  }
}
