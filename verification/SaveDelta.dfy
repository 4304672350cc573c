/** When two findings count as one across a save, and which findings block it, in terms of the findings' own fields. */
module SaveDelta {
  import opened Wrappers
  import opened Model
  import opened SaveGate
  import opened Sorting

  // ----- problems that differ in digits only -----

  function NonDigitAt(s: string, i: nat): Option<char> {
    if i < |s| && s[i] !in "0123456789" then Some(s[i]) else None
  }

  /** `kept` lists the characters of the text that are no digits, in order. */
  ghost predicate NonDigits(s: string, kept: string) {
    Picks(kept, |s|, (i: nat) => NonDigitAt(s, i))
  }

  lemma WithoutDigitsLast(s: string, c: char)
    ensures WithoutDigits(s + [c]) == WithoutDigits(s) + if c in "0123456789" then "" else [c]
  {
    DigitIff(c);
    if s == "" {
      assert s + [c] == [c];
      assert [c][1..] == "";
    } else {
      assert (s + [c])[1..] == s[1..] + [c];
      WithoutDigitsLast(s[1..], c);
    }
  }

  lemma DigitIff(c: char)
    ensures c in "0123456789" <==> '0' <= c <= '9'
  {
    if '0' <= c <= '9' {
      var d := c as int - '0' as int;
      assert "0123456789"[d] == c;
    }
  }

  lemma WithoutDigitsPicks(s: string)
    ensures NonDigits(s, WithoutDigits(s))
  {
    var pick: nat -> Option<char> := (i: nat) => NonDigitAt(s, i);
    PrefixPicks(s, |s|, pick);
    assert s[..|s|] == s;
  }

  lemma {:induction false} PrefixPicks(s: string, n: nat, pick: nat -> Option<char>)
    requires n <= |s| && forall i: nat :: pick(i) == NonDigitAt(s, i)
    ensures Picks(WithoutDigits(s[..n]), n, pick)
  {
    if n == 0 {
      PicksNothing(pick);
    } else {
      PrefixPicks(s, n - 1, pick);
      assert s[..n] == s[..n - 1] + [s[n - 1]];
      WithoutDigitsLast(s[..n - 1], s[n - 1]);
      PicksOneMore(WithoutDigits(s[..n - 1]), n - 1, pick, WithoutDigits(s[..n]));
    }
  }

  /** The two texts have the same characters in the same order when digits are left out. */
  ghost predicate AgreeBesideDigits(p: string, q: string) {
    exists kept :: NonDigits(p, kept) && NonDigits(q, kept)
  }

  lemma AgreeIff(p: string, q: string)
    ensures AgreeBesideDigits(p, q) <==> WithoutDigits(p) == WithoutDigits(q)
  {
    WithoutDigitsPicks(p);
    WithoutDigitsPicks(q);
    if AgreeBesideDigits(p, q) {
      var kept :| NonDigits(p, kept) && NonDigits(q, kept);
      PicksUnique(kept, WithoutDigits(p), |p|, (i: nat) => NonDigitAt(p, i));
      PicksUnique(kept, WithoutDigits(q), |q|, (i: nat) => NonDigitAt(q, i));
    }
  }

  // ----- findings that count as one -----

  /** The rule a finding is of: its rule id unless that is absent or empty, and its check id otherwise. */
  ghost predicate OfRule(f: Finding, rule: string) {
    || (f.ruleId == Some(rule) && rule != "")
    || ((f.ruleId == None || f.ruleId == Some("")) && f.checkId == rule)
  }

  ghost predicate SameRule(f: Finding, g: Finding) {
    exists rule :: OfRule(f, rule) && OfRule(g, rule)
  }

  /** Same rule, same category, and problems that differ in digits only. */
  ghost predicate CountsAsOne(f: Finding, g: Finding) {
    SameRule(f, g) && f.category == g.category && AgreeBesideDigits(f.problem, g.problem)
  }

  /** Neither its rule nor its category holds the character that separates the parts of a key. */
  ghost predicate Unbarred(f: Finding) {
    '|' !in f.category && forall rule | OfRule(f, rule) :: '|' !in rule
  }

  lemma CutAtBar(a: string, x: string, b: string, y: string)
    requires '|' !in a && '|' !in b && a + "|" + x == b + "|" + y
    ensures a == b && x == y
  {
    var s := a + "|" + x;
    assert s[|a|] == '|' && s[|b|] == '|';
    assert forall i | 0 <= i < |a| :: s[i] == a[i];
    assert forall i | 0 <= i < |b| :: s[i] == b[i];
    assert |a| == |b|;
    assert s[..|a|] == a && s[..|b|] == b && s[|a| + 1..] == x && s[|b| + 1..] == y;
  }

  lemma KeyParts(f: Finding) returns (rule: string)
    ensures OfRule(f, rule) && forall other | OfRule(f, other) :: other == rule
    ensures DeltaKey(f) == rule + "|" + (f.category + "|" + WithoutDigits(f.problem))
  {
    rule := if f.ruleId.Some? && f.ruleId.value != "" then f.ruleId.value else f.checkId;
    assert rule + "|" + f.category + "|" + WithoutDigits(f.problem)
        == rule + "|" + (f.category + "|" + WithoutDigits(f.problem));
  }

  /** Two findings have one key exactly if they count as one. */
  lemma OneKeyIff(f: Finding, g: Finding)
    requires Unbarred(f) && Unbarred(g)
    ensures DeltaKey(f) == DeltaKey(g) <==> CountsAsOne(f, g)
  {
    var a := KeyParts(f);
    var b := KeyParts(g);
    AgreeIff(f.problem, g.problem);
    if DeltaKey(f) == DeltaKey(g) {
      CutAtBar(a, f.category + "|" + WithoutDigits(f.problem), b, g.category + "|" + WithoutDigits(g.problem));
      CutAtBar(f.category, WithoutDigits(f.problem), g.category, WithoutDigits(g.problem));
    }
  }

  /** The condition is needed: a bar in a rule or a category can make one key of two findings. */
  lemma BarsCanClash(f: Finding, g: Finding)
    requires f.ruleId == Some("a|b") && f.category == "c" && g.ruleId == Some("a") && g.category == "b|c"
    requires f.problem == g.problem
    ensures DeltaKey(f) == DeltaKey(g) && !CountsAsOne(f, g)
  {
    assert "a|b" + "|" + "c" == "a|b|c" && "a" + "|" + "b|c" == "a|b|c";
  }

  // ----- findings that block -----

  /** From most to least severe; every other severity comes after these, and all others are equal. */
  const SEVERITIES := ["critical", "high", "medium", "low"]

  ghost predicate Severer(a: string, b: string) {
    exists i: nat :: i < |SEVERITIES| && a == SEVERITIES[i] && b !in SEVERITIES[..i + 1]
  }

  lemma SevererIff(a: string, b: string)
    ensures Severer(a, b) <==> SeverityRank(a) > SeverityRank(b)
  {
    var all := SEVERITIES;
    assert all[..1] == ["critical"] && all[..2] == ["critical", "high"];
    assert all[..3] == ["critical", "high", "medium"] && all[..4] == all;
    if SeverityRank(a) > SeverityRank(b) {
      var i: nat := 4 - SeverityRank(a);
      assert a == all[i] && b !in all[..i + 1];
    }
  }

  /** A hard finding that is new or severer than all it counts as one with, or a critical one that is not new. */
  ghost predicate Offends(f: Finding, baseline: seq<Finding>, failOn: seq<string>) {
    || (f.severity in failOn && forall g | g in baseline && CountsAsOne(f, g) :: Severer(f.severity, g.severity))
    || (f.severity == "critical" && exists g :: g in baseline && CountsAsOne(f, g))
  }

  ghost predicate AllUnbarred(findings: seq<Finding>) {
    forall f | f in findings :: Unbarred(f)
  }

  lemma OffendsIffBlocks(f: Finding, baseline: seq<Finding>, failOn: seq<string>)
    requires Unbarred(f) && AllUnbarred(baseline)
    ensures Classified(f, baseline, failOn).Blocks() <==> Offends(f, baseline, failOn)
    ensures Classified(f, baseline, failOn) == Preexisting
       <==> !Offends(f, baseline, failOn) && exists g :: g in baseline && CountsAsOne(f, g)
  {
    BaseRankIsHighest(baseline, DeltaKey(f));
    forall g | g in baseline
      ensures DeltaKey(g) == DeltaKey(f) <==> CountsAsOne(f, g)
      ensures Severer(f.severity, g.severity) <==> SeverityRank(f.severity) > SeverityRank(g.severity)
    {
      OneKeyIff(f, g);
      SevererIff(f.severity, g.severity);
    }
  }

  /** A save is accepted exactly if none of its findings offends. */
  lemma AcceptsIffNoneOffends(candidate: seq<Finding>, baseline: seq<Finding>, failOn: seq<string>)
    requires AllUnbarred(candidate) && AllUnbarred(baseline)
    ensures Accepts(candidate, baseline, failOn) <==> forall f | f in candidate :: !Offends(f, baseline, failOn)
  {
    forall f | f in candidate
      ensures Classified(f, baseline, failOn).Blocks() <==> Offends(f, baseline, failOn)
    {
      OffendsIffBlocks(f, baseline, failOn);
    }
  }

  /** The gate's answer: blocked exactly for an offending finding, passed exactly if all were there and none offends. */
  method Judge(mode: GateMode, candidate: seq<Finding>, baseline: seq<Finding>, policyFailOn: Option<seq<string>>)
    returns (verdict: Verdict, exitCode: int)
    requires AllUnbarred(candidate) && AllUnbarred(baseline)
    ensures var failOn := if policyFailOn == None || policyFailOn == Some([]) then ["critical", "high"]
                          else policyFailOn.value;
            && (verdict == Block <==>
                  mode == GateMode.SaveGate && exists f :: f in candidate && Offends(f, baseline, failOn))
            && (verdict == Pass <==>
                  forall f | f in candidate ::
                    !Offends(f, baseline, failOn) && exists g :: g in baseline && CountsAsOne(f, g))
    ensures exitCode == match verdict case Pass => 0 case Advise => 2 case Block => 3
  {
    var failOn := HardSeverities(policyFailOn);
    verdict, exitCode := Evaluate(mode, candidate, baseline, failOn);
    AcceptsIffNoneOffends(candidate, baseline, failOn);
    forall f | f in candidate
      ensures Classified(f, baseline, failOn) == Preexisting
         <==> !Offends(f, baseline, failOn) && exists g :: g in baseline && CountsAsOne(f, g)
    {
      OffendsIffBlocks(f, baseline, failOn);
    }
  }
}
