/** The verdict is that of the worst kind of issue, unless a name in the texts holds a word of another verdict. */
module VerdictKinds {
  import opened ProofVerdict
  import opened Text
  import opened VerdictTexts

  /** The text holds none of the words that make a verdict worse than this one. */
  ghost predicate Free(s: string, v: Verdict) {
    && (v != Blocked ==> !Contains(s, "missing") && !Contains(s, "unverified rule coverage"))
    && (v == Incomplete || v == Advisory ==> !Contains(s, "mismatch") && !Contains(s, "stale"))
    && (v == Advisory ==> !Contains(s, "exited with status"))
  }

  // ----- texts of the program -----

  ghost predicate PairAt(s: string, i: int, x: char, y: char) {
    0 <= i && i + 1 < |s| && s[i] == x && s[i + 1] == y
  }

  ghost predicate NoPair(s: string, x: char, y: char) {
    forall i :: !PairAt(s, i, x, y)
  }

  /** No two neighbours that stand in each such word. */
  ghost predicate Sparse(s: string, v: Verdict) {
    && (v != Blocked ==> NoPair(s, 's', 's') && NoPair(s, 'l', 'e'))
    && (v == Incomplete || v == Advisory ==> NoPair(s, 's', 'm'))
    && (v == Advisory ==> NoPair(s, ' ', 'w'))
  }

  lemma PairFound(s: string, word: string, k: nat)
    requires k + 1 < |word| && Contains(s, word)
    ensures !NoPair(s, word[k], word[k + 1])
  {
    var p: nat :| OccursAt(s, word, p);
    OccursIff(s, word, p);
    assert s[p + k] == word[k] && s[p + (k + 1)] == word[k + 1];
    assert PairAt(s, p + k, word[k], word[k + 1]);
  }

  lemma PairMissed(s: string, word: string, k: nat, x: char, y: char)
    requires k + 1 < |word| && word[k] == x && word[k + 1] == y && NoPair(s, x, y)
    ensures !Contains(s, word)
  {
    if Contains(s, word) {
      PairFound(s, word, k);
    }
  }

  lemma SparseIsFree(s: string, v: Verdict)
    requires Sparse(s, v)
    ensures Free(s, v)
  {
    if v != Blocked {
      PairMissed(s, "missing", 2, 's', 's');
      PairMissed(s, "unverified rule coverage", 13, 'l', 'e');
    }
    if v == Incomplete || v == Advisory {
      PairMissed(s, "mismatch", 2, 's', 'm');
      PairMissed(s, "stale", 3, 'l', 'e');
    }
    if v == Advisory {
      PairMissed(s, "exited with status", 6, ' ', 'w');
    }
  }

  // ----- texts around names -----

  lemma Covers(text: string, word: string, p: nat, k: nat)
    requires OccursAt(text, word, p) && p <= k < p + |word|
    ensures k < |text| && text[k] in word
  {
    OccursIff(text, word, p);
    assert text[p + (k - p)] == word[k - p];
  }

  lemma OnOneSide(a: string, b: string, word: string, text: string)
    requires text == a + "`" + b && '`' !in word && Contains(text, word)
    ensures Contains(a, word) || Contains(b, word)
  {
    var p: nat :| OccursAt(text, word, p);
    OccursIff(text, word, p);
    if p + |word| <= |a| {
      OccursIff(a, word, p);
      assert OccursAt(a, word, p);
    } else if p > |a| {
      var q := p - |a| - 1;
      OccursIff(b, word, q);
      assert OccursAt(b, word, q);
    } else {
      Covers(text, word, p, |a|);
    }
  }

  lemma NotAcross(a: string, b: string, word: string, text: string)
    requires text == a + "`" + b && '`' !in word && !Contains(a, word) && !Contains(b, word)
    ensures !Contains(text, word)
  {
    if Contains(text, word) {
      OnOneSide(a, b, word, text);
    }
  }

  lemma FreeAcross(a: string, b: string, v: Verdict, text: string)
    requires text == a + "`" + b && Free(a, v) && Free(b, v)
    ensures Free(text, v)
  {
    if v != Blocked {
      NotAcross(a, b, "missing", text);
      NotAcross(a, b, "unverified rule coverage", text);
    }
    if v == Incomplete || v == Advisory {
      NotAcross(a, b, "mismatch", text);
      NotAcross(a, b, "stale", text);
    }
    if v == Advisory {
      NotAcross(a, b, "exited with status", text);
    }
  }

  /** Quotes keep the words of a text and of the names in it apart. */
  lemma FreeAround(before: string, name: string, after: string, v: Verdict, text: string)
    requires text == before + Quoted(name) + after && Free(before, v) && Free(name, v) && Free(after, v)
    ensures Free(text, v)
  {
    FreeAcross(name, after, v, name + "`" + after);
    FreeAcross(before, name + "`" + after, v, text);
  }

  lemma Regroup(lead: string, word: string, more: string, name: string, after: string, before: string)
    requires before == lead + word + more
    ensures lead + word + (more + Quoted(name) + after) == before + Quoted(name) + after
  {
  }

  lemma Empty(v: Verdict)
    ensures Free("", v)
  {
    SparseIsFree("", v);
  }

  lemma OneName(before: string, name: string, after: string, v: Verdict, text: string)
    requires text == before + Quoted(name) + after && Sparse(before, v) && Free(name, v) && Sparse(after, v)
    ensures Free(text, v)
  {
    SparseIsFree(before, v);
    SparseIsFree(after, v);
    FreeAround(before, name, after, v, text);
  }

  lemma TwoNames(before: string, first: string, between: string, second: string, v: Verdict, text: string)
    requires text == before + Quoted(first) + (between + Quoted(second))
    requires Sparse(before, v) && Free(first, v) && Sparse(between, v) && Free(second, v)
    ensures Free(text, v)
  {
    SparseIsFree(before, v);
    SparseIsFree(between, v);
    Empty(v);
    FreeAround(between, second, "", v, between + Quoted(second));
    FreeAround(before, first, between + Quoted(second), v, text);
  }

  // ----- the kinds -----

  /** The names in an issue's text hold none of the words that are worse than its kind. */
  ghost predicate Harmless(issue: Issue) {
    match issue
    case PlanDigestMismatch(evidence, current) => Free(evidence, Stale) && Free(current, Stale)
    case ManifestMismatch(name, recorded, now) =>
      && NoPair(name, 's', 's') && NoPair(name, 'l', 'e')
      && recorded.Some? && Free(recorded.value, Stale) && now.Some? && Free(now.value, Stale)
    case ReceiptDigestMismatch(path, evidence, actual) =>
      Free(path, Stale) && Free(evidence, Stale) && Free(actual, Stale)
    case CommandDigestMismatch(lane) => Free(lane, Stale)
    case LogDigestMismatch(path) => Free(path, Stale)
    case ReceiptPlanMismatch(path) => Free(path, Stale)
    case ExitStatus(path, code) => Free(path, Incomplete) && forall c | c in code :: c == '-' || '0' <= c <= '9'
    case DuplicateReceipt(path) => Free(path, Advisory)
    case UnexpectedRun(lane, command) => Free(lane, Advisory) && Free(command, Advisory)
    case DuplicateRun(path) => Free(path, Advisory)
    case _ => true
  }

  lemma PlanDigestWords(before: string, between: string)
    requires before == "plan digest " + "mismatch" + ": evidence " && between == " vs current "
    ensures Sparse(before, Stale) && Sparse(between, Stale)
  {
  }

  lemma PlanDigestIsFree(issue: Issue, more: string, between: string)
    requires issue.PlanDigestMismatch? && Harmless(issue) && more == ": evidence " && between == " vs current "
    ensures Free(IssueText(issue), Stale)
  {
    var before := Lead(issue) + Keyword(issue) + more;
    PlanDigestWords(before, between);
    Regroup(Lead(issue), Keyword(issue), more, issue.evidence, between + Quoted(issue.current), before);
    assert more + Quoted(issue.evidence) + between + Quoted(issue.current)
        == more + Quoted(issue.evidence) + (between + Quoted(issue.current));
    TwoNames(before, issue.evidence, between, issue.current, Stale, IssueText(issue));
  }

  lemma NoPairJoined(a: string, b: string, x: char, y: char)
    requires NoPair(a, x, y) && NoPair(b, x, y)
    requires a == "" || b == "" || a[|a| - 1] != x || b[0] != y
    ensures NoPair(a + b, x, y)
  {
    forall i ensures !PairAt(a + b, i, x, y) {
      assert !PairAt(a, i, x, y) && !PairAt(b, i - |a|, x, y);
    }
  }

  lemma ManifestWords(front: string, end: string, between: string)
    requires front == "manifest fingerprint " + "mismatch" + " for "
    requires end == ": evidence " && between == " vs current "
    ensures front != "" && front[|front| - 1] == ' ' && end != "" && end[0] == ':'
    ensures Sparse(front, Stale) && Sparse(end, Stale) && Sparse(between, Stale)
  {
  }

  lemma NameBetween(front: string, name: string, end: string, before: string)
    requires before == front + name + end && Sparse(front, Stale) && Sparse(name, Stale) && Sparse(end, Stale)
    requires front != "" && front[|front| - 1] == ' ' && end != "" && end[0] == ':'
    ensures Sparse(before, Stale)
  {
    NoPairJoined(front, name, 's', 's');
    NoPairJoined(front, name, 'l', 'e');
    NoPairJoined(front + name, end, 's', 's');
    NoPairJoined(front + name, end, 'l', 'e');
  }

  lemma ManifestIsFree(issue: Issue, start: string, end: string, between: string)
    requires issue.ManifestMismatch? && Harmless(issue)
    requires start == " for " && end == ": evidence " && between == " vs current "
    ensures Free(IssueText(issue), Stale)
  {
    var front, more := Lead(issue) + Keyword(issue) + start, start + issue.name + end;
    var before, was, now := front + issue.name + end, issue.recorded.value, issue.now.value;
    ManifestWords(front, end, between);
    NameBetween(front, issue.name, end, before);
    assert before == Lead(issue) + Keyword(issue) + more;
    Regroup(Lead(issue), Keyword(issue), more, was, between + Quoted(now), before);
    assert more + Quoted(was) + between + Quoted(now) == more + Quoted(was) + (between + Quoted(now));
    TwoNames(before, was, between, now, Stale, IssueText(issue));
  }

  lemma ReceiptDigestWords(before: string, first: string, second: string)
    requires before == "receipt digest " + "mismatch" + " for "
    requires first == ": evidence " && second == " vs actual "
    ensures Sparse(before, Stale) && Sparse(first, Stale) && Sparse(second, Stale)
  {
  }

  lemma ThreeNames(lead: string, word: string, more: string, path: string, first: string, evidence: string,
                   second: string, actual: string, v: Verdict)
    requires Sparse(lead + word + more, v) && Sparse(first, v) && Sparse(second, v)
    requires Free(path, v) && Free(evidence, v) && Free(actual, v)
    ensures Free(lead + word + (more + Quoted(path) + first + Quoted(evidence) + second + Quoted(actual)), v)
  {
    var before, after := lead + word + more, first + Quoted(evidence) + (second + Quoted(actual));
    TwoNames(first, evidence, second, actual, v, after);
    SparseIsFree(before, v);
    Regroup(lead, word, more, path, after, before);
    assert more + Quoted(path) + first + Quoted(evidence) + second + Quoted(actual) == more + Quoted(path) + after;
    FreeAround(before, path, after, v, lead + word + (more + Quoted(path) + after));
  }

  lemma ReceiptDigestIsFree(issue: Issue, more: string, first: string, second: string)
    requires issue.ReceiptDigestMismatch? && Harmless(issue)
    requires more == " for " && first == ": evidence " && second == " vs actual "
    ensures Free(IssueText(issue), Stale)
  {
    ReceiptDigestWords(Lead(issue) + Keyword(issue) + more, first, second);
    ThreeNames(Lead(issue), Keyword(issue), more, issue.path, first, issue.evidence, second, issue.actual, Stale);
  }

  lemma CommandDigestWords(before: string)
    requires before == "command digest " + "mismatch" + " for "
    ensures Sparse(before, Stale)
  {
  }

  lemma LogDigestWords(before: string)
    requires before == "log digest " + "mismatch" + " for "
    ensures Sparse(before, Stale)
  {
  }

  lemma DigestIsFree(issue: Issue, more: string, name: string)
    requires (issue.CommandDigestMismatch? && name == issue.lane) || (issue.LogDigestMismatch? && name == issue.path)
    requires Harmless(issue) && more == " for "
    ensures Free(IssueText(issue), Stale)
  {
    var before := Lead(issue) + Keyword(issue) + more;
    if issue.LogDigestMismatch? {
      LogDigestWords(before);
    } else {
      CommandDigestWords(before);
    }
    Empty(Stale);
    SparseIsFree(before, Stale);
    Regroup(Lead(issue), Keyword(issue), more, name, "", before);
    assert more + Quoted(name) + "" == more + Quoted(name);
    FreeAround(before, name, "", Stale, IssueText(issue));
  }

  lemma InventoryWords(text: string)
    requires text == "evidence command inventory " + "mismatch"
    ensures Sparse(text, Stale)
  {
  }

  lemma InventoryIsFree(lead: string, text: string)
    requires lead == "evidence command inventory " && text == lead + "mismatch" + ""
    ensures Free(text, Stale)
  {
    assert text == lead + "mismatch";
    InventoryWords(text);
    SparseIsFree(text, Stale);
  }

  lemma ReceiptPlanWords(before: string, after: string)
    requires before == "receipt " && after == " plan digest " + "mismatch"
    ensures Sparse(before, Stale) && Sparse(after, Stale)
  {
  }

  lemma ReceiptPlanIsFree(issue: Issue, before: string, end: string)
    requires issue.ReceiptPlanMismatch? && Harmless(issue) && before == "receipt " && end == " plan digest "
    ensures Free(IssueText(issue), Stale)
  {
    var after := end + Keyword(issue);
    ReceiptPlanWords(before, after);
    assert before + Quoted(issue.path) + end + Keyword(issue) + "" == before + Quoted(issue.path) + after;
    OneName(before, issue.path, after, Stale, IssueText(issue));
  }

  lemma ExitWords(before: string, front: string)
    requires before == "receipt " && front == " " + "exited with status" + " "
    ensures Sparse(before, Incomplete) && Sparse(front, Incomplete) && front != "" && front[|front| - 1] == ' '
  {
  }

  lemma CodeIsSparse(front: string, code: string)
    requires Sparse(front, Incomplete) && front != "" && front[|front| - 1] == ' '
    requires forall c | c in code :: c == '-' || '0' <= c <= '9'
    ensures Sparse(front + code, Incomplete)
  {
    forall i ensures !PairAt(code, i, 's', 's') && !PairAt(code, i, 'l', 'e') && !PairAt(code, i, 's', 'm') {
      assert 0 <= i < |code| ==> code[i] in code;
    }
    NoPairJoined(front, code, 's', 's');
    NoPairJoined(front, code, 'l', 'e');
    NoPairJoined(front, code, 's', 'm');
  }

  lemma ExitIsFree(issue: Issue, before: string, blank: string)
    requires issue.ExitStatus? && Harmless(issue) && before == "receipt " && blank == " "
    ensures Free(IssueText(issue), Incomplete)
  {
    var front := blank + Keyword(issue) + blank;
    ExitWords(before, front);
    CodeIsSparse(front, issue.code);
    assert before + Quoted(issue.path) + blank + Keyword(issue) + (blank + issue.code)
        == before + Quoted(issue.path) + (front + issue.code);
    OneName(before, issue.path, front + issue.code, Incomplete, IssueText(issue));
  }

  lemma ReceiptEntryWords(before: string)
    requires before == "duplicate receipt inventory entry "
    ensures Sparse(before, Advisory)
  {
  }

  lemma ReceiptRunWords(before: string)
    requires before == "duplicate receipt run in "
    ensures Sparse(before, Advisory)
  {
  }

  lemma UnexpectedWords(before: string, between: string)
    requires before == "unexpected receipt run " && between == ": "
    ensures Sparse(before, Advisory) && Sparse(between, Advisory)
  {
  }

  lemma PathsWords(start: string, end: string)
    requires start == "evidence changed_paths do " && end == "not match plan changed_paths"
    ensures Sparse(start, Advisory) && Sparse(end, Advisory)
    ensures start != "" && start[|start| - 1] == ' ' && end != "" && end[0] == 'n'
  {
  }

  lemma DuplicateIsFree(issue: Issue, before: string)
    requires (issue.DuplicateReceipt? || issue.DuplicateRun?) && Harmless(issue)
    requires Sparse(before, Advisory) && Lead(issue) == before + Quoted(issue.path)
    ensures Free(IssueText(issue), Advisory)
  {
    Empty(Advisory);
    SparseIsFree(before, Advisory);
    assert before + Quoted(issue.path) + "" + "" == before + Quoted(issue.path) + "";
    FreeAround(before, issue.path, "", Advisory, IssueText(issue));
  }

  lemma UnexpectedIsFree(issue: Issue, before: string, between: string)
    requires issue.UnexpectedRun? && Harmless(issue) && before == "unexpected receipt run " && between == ": "
    ensures Free(IssueText(issue), Advisory)
  {
    UnexpectedWords(before, between);
    assert before + Quoted(issue.lane) + between + Quoted(issue.command) + "" + ""
        == before + Quoted(issue.lane) + (between + Quoted(issue.command));
    TwoNames(before, issue.lane, between, issue.command, Advisory, IssueText(issue));
  }

  lemma PathsAreFree(start: string, end: string, text: string)
    requires start == "evidence changed_paths do " && end == "not match plan changed_paths" && text == start + end
    ensures Free(text, Advisory)
  {
    PathsWords(start, end);
    NoPairJoined(start, end, 's', 's');
    NoPairJoined(start, end, 'l', 'e');
    NoPairJoined(start, end, 's', 'm');
    NoPairJoined(start, end, ' ', 'w');
    SparseIsFree(text, Advisory);
  }

  lemma PathsText(differ: string, start: string, end: string)
    requires differ == "evidence changed_paths do not match plan changed_paths"
    requires start == "evidence changed_paths do " && end == "not match plan changed_paths"
    ensures differ + "" + "" == start + end
  {
  }

  lemma AdvisoryIsFree(issue: Issue)
    requires Harmless(issue) && Floor(issue) == Advisory
    ensures Free(IssueText(issue), Advisory)
  {
    match issue
    case DuplicateReceipt(_) =>
      ReceiptEntryWords("duplicate receipt inventory entry ");
      DuplicateIsFree(issue, "duplicate receipt inventory entry ");
    case DuplicateRun(_) =>
      ReceiptRunWords("duplicate receipt run in ");
      DuplicateIsFree(issue, "duplicate receipt run in ");
    case UnexpectedRun(_, _) => UnexpectedIsFree(issue, "unexpected receipt run ", ": ");
    case ChangedPathsDiffer =>
      var differ := Lead(issue);
      PathsText(differ, "evidence changed_paths do ", "not match plan changed_paths");
      PathsAreFree("evidence changed_paths do ", "not match plan changed_paths", IssueText(issue));
  }

  lemma StaleIsFree(issue: Issue)
    requires Harmless(issue) && Floor(issue) == Stale
    ensures Free(IssueText(issue), Stale)
  {
    match issue
    case PlanDigestMismatch(_, _) => PlanDigestIsFree(issue, ": evidence ", " vs current ");
    case ManifestMismatch(_, _, _) => ManifestIsFree(issue, " for ", ": evidence ", " vs current ");
    case ReceiptDigestMismatch(_, _, _) => ReceiptDigestIsFree(issue, " for ", ": evidence ", " vs actual ");
    case CommandDigestMismatch(lane) => DigestIsFree(issue, " for ", lane);
    case LogDigestMismatch(path) => DigestIsFree(issue, " for ", path);
    case CommandInventoryMismatch => InventoryIsFree(Lead(issue), IssueText(issue));
    case ReceiptPlanMismatch(_) => ReceiptPlanIsFree(issue, "receipt ", " plan digest ");
  }

  lemma HarmlessIsFree(issue: Issue)
    requires Harmless(issue)
    ensures Free(IssueText(issue), Floor(issue))
  {
    match Floor(issue)
    case Advisory => AdvisoryIsFree(issue);
    case Incomplete => ExitIsFree(issue, "receipt ", " ");
    case Stale => StaleIsFree(issue);
    case _ =>
  }

  /** Which kinds are how bad. */
  lemma KindsByVerdict(issue: Issue)
    ensures Floor(issue) == match issue
                            case NoUniqueInventory | UnverifiedCoverage | MissingReceipt(_) => Blocked
                            case MissingReceiptDigest(_) | MissingLog(_) | MissingLogPath(_) => Blocked
                            case UnverifiedReceiptCoverage(_) | MissingRun(_, _) => Blocked
                            case PlanDigestMismatch(_, _) | CommandInventoryMismatch => Stale
                            case ManifestMismatch(_, _, _) => Stale
                            case ReceiptDigestMismatch(_, _, _) | CommandDigestMismatch(_) => Stale
                            case LogDigestMismatch(_) | ReceiptPlanMismatch(_) => Stale
                            case ExitStatus(_, _) => Incomplete
                            case ChangedPathsDiffer | DuplicateReceipt(_) => Advisory
                            case UnexpectedRun(_, _) | DuplicateRun(_) => Advisory
  {
  }

  lemma OneText(text: string, word: string)
    ensures SomeHolds([text], word) <==> Contains(text, word)
  {
    ContainsIffOccurs(text, word);
    assert [text][0] == text;
  }

  lemma FreeVerdict(text: string, v: Verdict)
    requires v != Pass && Free(text, v)
    ensures Badness(ClassifyVerdict([text])) <= Badness(v)
  {
    VerdictIs([text]);
    OneText(text, "missing");
    OneText(text, "unverified rule coverage");
    OneText(text, "mismatch");
    OneText(text, "stale");
    OneText(text, "exited with status");
  }

  /** An issue with harmless names gets exactly the verdict of its kind. */
  lemma KindDecides(issue: Issue)
    requires Harmless(issue)
    ensures ClassifyVerdict([IssueText(issue)]) == Floor(issue)
  {
    HarmlessIsFree(issue);
    FreeVerdict(IssueText(issue), Floor(issue));
    OneIssueVerdict(issue);
  }

  lemma HoldsInside(before: string, name: string, after: string, word: string, text: string)
    requires text == before + name + after && Contains(name, word)
    ensures Contains(text, word)
  {
    var p: nat :| OccursAt(name, word, p);
    OccursIff(name, word, p);
    OccursIff(text, word, |before| + p);
    assert OccursAt(text, word, |before| + p);
  }

  /** A harmful name: a run that was not planned is only advisory, but it blocks if its command holds the word. */
  lemma CommandCanBlock(lane: string, command: string)
    requires Contains(command, "missing")
    ensures Floor(UnexpectedRun(lane, command)) == Advisory
    ensures ClassifyVerdict([IssueText(UnexpectedRun(lane, command))]) == Blocked
  {
    var issue := UnexpectedRun(lane, command);
    var before := "unexpected receipt run " + Quoted(lane) + ": ";
    assert before + Quoted(command) + "" + "" == (before + "`") + command + "`";
    HoldsInside(before + "`", command, "`", "missing", IssueText(issue));
    OneTextVerdict(IssueText(issue));
  }

  /** `v` is the worst of the kinds there are, and passes if there are none. */
  ghost predicate WorstKind(issues: seq<Issue>, v: Verdict) {
    && (issues == [] ==> v == Pass)
    && (issues != [] ==> exists i :: 0 <= i < |issues| && v == Floor(issues[i]))
    && forall i | 0 <= i < |issues| :: Badness(Floor(issues[i])) <= Badness(v)
  }

  lemma WorseKind(issue: Issue, rest: seq<Issue>, v: Verdict)
    requires WorstKind(rest, v)
    ensures WorstKind([issue] + rest, Worse(Floor(issue), v))
  {
    var issues := [issue] + rest;
    assert issues[0] == issue;
    if rest != [] {
      var i :| 0 <= i < |rest| && v == Floor(rest[i]);
      assert issues[i + 1] == rest[i];
    }
    forall i | 0 <= i < |issues| ensures Badness(Floor(issues[i])) <= Badness(Worse(Floor(issue), v)) {
      assert i > 0 ==> issues[i] == rest[i - 1];
    }
  }

  lemma TextsJoin(view: Issue -> string, issue: Issue, rest: seq<Issue>, texts: seq<string>, others: seq<string>)
    requires |texts| == 1 + |rest| && forall i | 0 <= i < |texts| :: texts[i] == view(([issue] + rest)[i])
    requires |others| == |rest| && forall i | 0 <= i < |others| :: others[i] == view(rest[i])
    ensures texts == [view(issue)] + others
  {
  }

  lemma OneMoreIssue(issue: Issue, rest: seq<Issue>, v: Verdict)
    requires Harmless(issue) && v == ClassifyVerdict(Texts(rest))
    ensures ClassifyVerdict(Texts([issue] + rest)) == Worse(Floor(issue), v)
  {
    KindDecides(issue);
    TextsJoin((other: Issue) => IssueText(other), issue, rest, Texts([issue] + rest), Texts(rest));
    VerdictOfConcat([IssueText(issue)], Texts(rest));
  }

  /** Where all names are harmless, the verdict is that of the worst kind there is. */
  lemma {:induction false} WorstKindDecides(issues: seq<Issue>)
    requires forall i | 0 <= i < |issues| :: Harmless(issues[i])
    ensures WorstKind(issues, ClassifyVerdict(Texts(issues)))
  {
    if issues != [] {
      var first, rest := issues[0], issues[1..];
      WorstKindDecides(rest);
      var v := ClassifyVerdict(Texts(rest));
      OneMoreIssue(first, rest, v);
      WorseKind(first, rest, v);
      assert [first] + rest == issues;
    }
  }
}
