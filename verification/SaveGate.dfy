/** The save gate: which findings of a candidate file block it, and what a run of accepted saves keeps. */
module SaveGate {
  import opened Wrappers
  import opened Model

  function SeverityRank(severity: string): int {
    if severity == "critical" then 4
    else if severity == "high" then 3
    else if severity == "medium" then 2
    else if severity == "low" then 1
    else 0
  }

  function WithoutDigits(s: string): string {
    if s == "" then ""
    else (if '0' <= s[0] <= '9' then "" else [s[0]]) + WithoutDigits(s[1..])
  }

  function DeltaKey(f: Finding): string {
    var rule := if f.ruleId.Some? && f.ruleId.value != "" then f.ruleId.value else f.checkId;
    rule + "|" + f.category + "|" + WithoutDigits(f.problem)
  }

  datatype Bucket = NewHard | NewSoft | Worsened | AlwaysBlock | Preexisting {
    predicate Blocks() {
      NewHard? || Worsened? || AlwaysBlock?
    }
  }

  function MaxRank(before: Option<int>, rank: int): int {
    if before.Some? && before.value > rank then before.value else rank
  }

  /** The highest rank among the findings with a key. */
  function BaseRank(baseline: seq<Finding>, key: string): Option<int> {
    if baseline == [] then None
    else
      var n := |baseline| - 1;
      var rest := BaseRank(baseline[..n], key);
      if DeltaKey(baseline[n]) != key then rest else Some(MaxRank(rest, SeverityRank(baseline[n].severity)))
  }

  lemma {:induction false} BaseRankIsHighest(baseline: seq<Finding>, key: string)
    ensures match BaseRank(baseline, key)
            case None => forall g | g in baseline :: DeltaKey(g) != key
            case Some(rank) =>
              && (exists g | g in baseline :: DeltaKey(g) == key && SeverityRank(g.severity) == rank)
              && (forall g | g in baseline && DeltaKey(g) == key :: SeverityRank(g.severity) <= rank)
  {
    if baseline != [] {
      var n := |baseline| - 1;
      BaseRankIsHighest(baseline[..n], key);
      assert baseline == baseline[..n] + [baseline[n]];
    }
  }

  function BucketOf(f: Finding, base: Option<int>, failOn: seq<string>): Bucket {
    var hard := f.severity in failOn;
    match base
    case None => if hard then NewHard else NewSoft
    case Some(rank) =>
      if hard && SeverityRank(f.severity) > rank then Worsened
      else if f.severity == "critical" then AlwaysBlock
      else Preexisting
  }

  function Classified(f: Finding, baseline: seq<Finding>, failOn: seq<string>): Bucket {
    BucketOf(f, BaseRank(baseline, DeltaKey(f)), failOn)
  }

  /** The candidate's findings of one bucket, in order. */
  function Selected(candidate: seq<Finding>, baseline: seq<Finding>, failOn: seq<string>,
                    bucket: Bucket): seq<Finding> {
    if candidate == [] then []
    else
      var n := |candidate| - 1;
      Selected(candidate[..n], baseline, failOn, bucket)
      + if Classified(candidate[n], baseline, failOn) == bucket then [candidate[n]] else []
  }

  datatype BucketSet = BucketSet(newHard: seq<Finding>, newSoft: seq<Finding>, worsened: seq<Finding>,
                                 alwaysBlock: seq<Finding>, preexisting: seq<Finding>) {
    predicate WouldBlock() {
      newHard != [] || worsened != [] || alwaysBlock != []
    }
  }

  method Classify(candidate: seq<Finding>, baseline: seq<Finding>, failOn: seq<string>) returns (b: BucketSet)
    ensures b == AllSelected(candidate, baseline, failOn)
    ensures b.WouldBlock() <==> exists f | f in candidate :: Classified(f, baseline, failOn).Blocks()
  {
    var baseMap := BaseMap(baseline);
    b := BucketSet([], [], [], [], []);
    for i := 0 to |candidate|
      invariant b == AllSelected(candidate[..i], baseline, failOn)
    {
      var finding := candidate[i];
      var key := DeltaKey(finding);
      var hard := finding.severity in failOn;
      var critical := finding.severity == "critical";
      SelectedOneMore(candidate, i, baseline, failOn);
      assert Lookup(baseMap, key) == BaseRank(baseline, key);
      if key !in baseMap {
        if hard {
          b := b.(newHard := b.newHard + [finding]);
        } else {
          b := b.(newSoft := b.newSoft + [finding]);
        }
      } else if hard && SeverityRank(finding.severity) > baseMap[key] {
        b := b.(worsened := b.worsened + [finding]);
      } else if critical {
        b := b.(alwaysBlock := b.alwaysBlock + [finding]);
      } else {
        b := b.(preexisting := b.preexisting + [finding]);
      }
    }
    assert candidate[..|candidate|] == candidate;
    SelectedElements(candidate, baseline, failOn, NewHard);
    SelectedElements(candidate, baseline, failOn, Worsened);
    SelectedElements(candidate, baseline, failOn, AlwaysBlock);
  }

  function AllSelected(candidate: seq<Finding>, baseline: seq<Finding>, failOn: seq<string>): BucketSet {
    BucketSet(Selected(candidate, baseline, failOn, NewHard), Selected(candidate, baseline, failOn, NewSoft),
              Selected(candidate, baseline, failOn, Worsened), Selected(candidate, baseline, failOn, AlwaysBlock),
              Selected(candidate, baseline, failOn, Preexisting))
  }

  function Add(b: BucketSet, f: Finding, bucket: Bucket): BucketSet {
    match bucket
    case NewHard => b.(newHard := b.newHard + [f])
    case NewSoft => b.(newSoft := b.newSoft + [f])
    case Worsened => b.(worsened := b.worsened + [f])
    case AlwaysBlock => b.(alwaysBlock := b.alwaysBlock + [f])
    case Preexisting => b.(preexisting := b.preexisting + [f])
  }

  lemma SelectedOneMore(candidate: seq<Finding>, i: nat, baseline: seq<Finding>, failOn: seq<string>)
    requires i < |candidate|
    ensures AllSelected(candidate[..i + 1], baseline, failOn)
         == Add(AllSelected(candidate[..i], baseline, failOn), candidate[i], Classified(candidate[i], baseline, failOn))
  {
    assert candidate[..i + 1][..i] == candidate[..i];
  }

  method BaseMap(baseline: seq<Finding>) returns (m: map<string, int>)
    ensures forall key :: Lookup(m, key) == BaseRank(baseline, key)
  {
    m := map[];
    for i := 0 to |baseline|
      invariant forall key :: Lookup(m, key) == BaseRank(baseline[..i], key)
    {
      var rank := SeverityRank(baseline[i].severity);
      var key := DeltaKey(baseline[i]);
      ghost var before := m;
      assert Lookup(before, key) == BaseRank(baseline[..i], key);
      m := m[key := if key in m && m[key] > rank then m[key] else rank];
      forall k ensures Lookup(m, k) == BaseRank(baseline[..i + 1], k) {
        BaseRankOneMore(baseline, i, k);
        assert Lookup(m, k) == if k == key then Some(MaxRank(Lookup(before, key), rank)) else Lookup(before, k);
      }
    }
    assert baseline[..|baseline|] == baseline;
  }

  lemma BaseRankOneMore(baseline: seq<Finding>, i: nat, key: string)
    requires i < |baseline|
    ensures BaseRank(baseline[..i + 1], key)
         == if DeltaKey(baseline[i]) != key then BaseRank(baseline[..i], key)
            else Some(MaxRank(BaseRank(baseline[..i], key), SeverityRank(baseline[i].severity)))
  {
    assert baseline[..i + 1][..i] == baseline[..i];
  }

  lemma {:induction false} SelectedElements(candidate: seq<Finding>, baseline: seq<Finding>, failOn: seq<string>,
                                            bucket: Bucket)
    ensures Selected(candidate, baseline, failOn, bucket) != []
       <==> exists f | f in candidate :: Classified(f, baseline, failOn) == bucket
  {
    if candidate != [] {
      var n := |candidate| - 1;
      SelectedElements(candidate[..n], baseline, failOn, bucket);
      assert candidate == candidate[..n] + [candidate[n]];
    }
  }

  // ---- decisions ----------------------------------------------------------

  datatype GateMode = SaveGate | Advisory
  datatype Verdict = Pass | Advise | Block

  function Decide(mode: GateMode, wouldBlock: bool, hasAdvisory: bool): (Verdict, int) {
    match mode
    case SaveGate => if wouldBlock then (Block, 3) else if hasAdvisory then (Advise, 2) else (Pass, 0)
    case Advisory => if wouldBlock || hasAdvisory then (Advise, 2) else (Pass, 0)
  }

  /** The gate lets the candidate replace a file whose findings are the baseline. */
  ghost predicate Accepts(candidate: seq<Finding>, baseline: seq<Finding>, failOn: seq<string>) {
    forall f | f in candidate :: !Classified(f, baseline, failOn).Blocks()
  }

  method Evaluate(mode: GateMode, candidate: seq<Finding>, baseline: seq<Finding>, failOn: seq<string>)
    returns (verdict: Verdict, exitCode: int)
    ensures verdict == Block <==> mode == SaveGate && !Accepts(candidate, baseline, failOn)
    ensures verdict == Pass <==> forall f | f in candidate :: Classified(f, baseline, failOn) == Preexisting
    ensures exitCode == match verdict case Pass => 0 case Advise => 2 case Block => 3
  {
    var buckets := Classify(candidate, baseline, failOn);
    SelectedElements(candidate, baseline, failOn, NewSoft);
    var decision := Decide(mode, buckets.WouldBlock(), buckets.newSoft != []);
    verdict, exitCode := decision.0, decision.1;
  }

  /** The severities a report's policy treats as hard; an empty list means the default. */
  function HardSeverities(policyFailOn: Option<seq<string>>): seq<string> {
    if policyFailOn.Some? && policyFailOn.value != [] then policyFailOn.value else ["critical", "high"]
  }

  // ---- runs of saves ------------------------------------------------------

  /** Whatever is at least as severe as a hard severity is hard, among the severities findings carry. */
  ghost predicate UpwardClosed(failOn: seq<string>, severities: set<string>) {
    forall s, t | s in severities && t in severities && t in failOn && SeverityRank(s) >= SeverityRank(t) :: s in failOn
  }

  ghost predicate Carries(findings: seq<Finding>, severities: set<string>) {
    forall f | f in findings :: f.severity in severities
  }

  /** The findings of a file through accepted saves, each judged against the one before. */
  ghost predicate Run(states: seq<seq<Finding>>, failOn: seq<string>, severities: set<string>) {
    && states != []
    && (forall i | 0 <= i < |states| :: Carries(states[i], severities))
    && (forall i | 0 < i < |states| :: Accepts(states[i], states[i - 1], failOn))
  }

  /** A hard finding has a forerunner: one with its key that was already at least as severe. */
  ghost predicate HasForerunner(f: Finding, findings: seq<Finding>) {
    exists g | g in findings :: DeltaKey(g) == DeltaKey(f) && SeverityRank(g.severity) >= SeverityRank(f.severity)
  }

  ghost predicate NoNewHardDebt(original: seq<Finding>, current: seq<Finding>, failOn: seq<string>) {
    forall f | f in current && f.severity in failOn :: HasForerunner(f, original)
  }

  /** One accepted save: a hard finding was there before, at least as severe and so hard as well. */
  lemma AcceptedStep(candidate: seq<Finding>, baseline: seq<Finding>, failOn: seq<string>, f: Finding)
    requires Accepts(candidate, baseline, failOn) && f in candidate && f.severity in failOn
    ensures HasForerunner(f, baseline)
  {
    assert !Classified(f, baseline, failOn).Blocks();
    BaseRankIsHighest(baseline, DeltaKey(f));
    var base := BaseRank(baseline, DeltaKey(f));
    assert base.Some? && SeverityRank(f.severity) <= base.value;
  }

  lemma {:induction false} RunKeepsForerunners(states: seq<seq<Finding>>, failOn: seq<string>, severities: set<string>)
    requires UpwardClosed(failOn, severities) && Run(states, failOn, severities)
    ensures NoNewHardDebt(states[0], states[|states| - 1], failOn)
  {
    var n := |states| - 1;
    if n > 0 {
      var shorter := states[..n];
      assert forall i | 0 <= i < n :: shorter[i] == states[i];
      RunKeepsForerunners(shorter, failOn, severities);
      forall f | f in states[n] && f.severity in failOn ensures HasForerunner(f, states[0]) {
        AcceptedStep(states[n], states[n - 1], failOn, f);
        var g :| && g in states[n - 1] && DeltaKey(g) == DeltaKey(f)
                 && SeverityRank(g.severity) >= SeverityRank(f.severity);
        assert Carries(states[n - 1], severities) && Carries(states[n], severities);
        assert HasForerunner(g, states[0]);
      }
    }
  }

  function Sample(severity: string): Finding {
    Finding(severity, "", "", "", "", "", "", None, None, None, None, None, "hard")
  }

  /** A gap in the hard severities lets a new finding in softly and then lowers it into a hard one. */
  lemma GapLetsDebtIn(failOn: seq<string>, severities: set<string>) returns (states: seq<seq<Finding>>)
    requires !UpwardClosed(failOn, severities)
    ensures Run(states, failOn, severities) && !NoNewHardDebt(states[0], states[|states| - 1], failOn)
  {
    var s, t :| s in severities && t in severities && t in failOn && SeverityRank(s) >= SeverityRank(t) && s !in failOn;
    var soft, hard := Sample(s), Sample(t);
    states := [[], [soft], [hard]];
    assert t != "critical";
    assert DeltaKey(soft) == DeltaKey(hard);
    assert soft in states[1];
    assert Accepts(states[1], states[0], failOn);
    assert Classified(hard, states[1], failOn) == Preexisting;
    assert hard in states[2] && !HasForerunner(hard, states[0]);
  }

  /** The default hard severities are upward closed whatever severities findings carry, and hold "critical". */
  lemma DefaultIsUpwardClosed(severities: set<string>)
    ensures UpwardClosed(HardSeverities(None), severities) && "critical" in HardSeverities(None)
  {
    var hard := HardSeverities(None);
    assert hard[0] == "critical" && hard[1] == "high";
  }

  /** No run of accepted saves adds hard debt exactly when the hard severities are upward closed. */
  lemma NoRunAddsHardDebt(failOn: seq<string>, severities: set<string>)
    ensures (forall states | Run(states, failOn, severities) ::
               NoNewHardDebt(states[0], states[|states| - 1], failOn))
       <==> UpwardClosed(failOn, severities)
  {
    if UpwardClosed(failOn, severities) {
      forall states | Run(states, failOn, severities)
        ensures NoNewHardDebt(states[0], states[|states| - 1], failOn)
      {
        RunKeepsForerunners(states, failOn, severities);
      }
    } else {
      var states := GapLetsDebtIn(failOn, severities);
    }
  }

  /** No accepted save leaves a critical finding exactly when "critical" is one of the hard severities. */
  lemma NoAcceptedCritical(failOn: seq<string>)
    ensures (forall candidate: seq<Finding>, baseline, f | Accepts(candidate, baseline, failOn) && f in candidate ::
               f.severity != "critical")
       <==> "critical" in failOn
  {
    if "critical" !in failOn {
      var f := Sample("critical");
      assert f in [f] && Accepts([f], [], failOn);
    }
  }
}
