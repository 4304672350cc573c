/** The fix queue's order and entries, in terms of the findings' own fields. */
module FixOrder {
  import opened Text
  import opened Model
  import opened FixQueue

  /** From most to least urgent; every other one comes after these. */
  const TLRS := ["Security", "Business truth", "Contracts/data", "Verification", "Repair", "Context/setup"]

  const SEVERITIES := ["critical", "high", "medium"]

  /** `a` stands in the list and `b` does not, or later. */
  ghost predicate Precedes(names: seq<string>, a: string, b: string) {
    exists i: nat :: i < |names| && a == names[i] && b !in names[..i + 1]
  }

  ghost predicate Level(names: seq<string>, a: string, b: string) {
    !Precedes(names, a, b) && !Precedes(names, b, a)
  }

  ghost function TlrName(f: Finding): string {
    match f.tlr
    case Some(name) => name
    case None => ""
  }

  lemma SeverityPrecedes(a: string, b: string)
    ensures Precedes(SEVERITIES, a, b) <==> SeverityOrder(a) < SeverityOrder(b)
  {
    var all := SEVERITIES;
    assert all[..1] == ["critical"] && all[..2] == ["critical", "high"] && all[..3] == all;
    if SeverityOrder(a) < SeverityOrder(b) {
      var i: nat := SeverityOrder(a);
      assert a == all[i] && b !in all[..i + 1];
    }
  }

  /** A rank is the position of a name in the list, and the list's length for other names. */
  lemma TlrRank(f: Finding)
    ensures var rank := TlrOrder(f.tlr);
            && 0 <= rank <= |TLRS| && TlrName(f) !in TLRS[..rank]
            && (rank < |TLRS| ==> TLRS[rank] == TlrName(f))
  {
    var all := TLRS;
    assert all[..0] == [] && all[..1] == all[..0] + [all[0]] && all[..2] == all[..1] + [all[1]];
    assert all[..3] == all[..2] + [all[2]] && all[..4] == all[..3] + [all[3]];
    assert all[..5] == all[..4] + [all[4]] && all[..6] == all[..5] + [all[5]];
  }

  lemma TlrPrecedes(f: Finding, g: Finding)
    ensures Precedes(TLRS, TlrName(f), TlrName(g)) <==> TlrOrder(f.tlr) < TlrOrder(g.tlr)
  {
    TlrRank(f);
    TlrRank(g);
    RankPrecedes(TLRS, TlrName(f), TlrOrder(f.tlr), TlrName(g), TlrOrder(g.tlr));
  }

  lemma InPrefix(names: seq<string>, n: nat, k: nat)
    requires k < n <= |names|
    ensures names[k] in names[..n]
  {
    assert names[..n][k] == names[k];
  }

  lemma RankPrecedes(names: seq<string>, a: string, i: nat, b: string, j: nat)
    requires i <= |names| && a !in names[..i] && (i < |names| ==> names[i] == a)
    requires j <= |names| && b !in names[..j] && (j < |names| ==> names[j] == b)
    ensures Precedes(names, a, b) <==> i < j
  {
    if i < j {
      forall k | 0 <= k < i + 1 ensures names[k] != b {
        assert names[k] == names[..j][k];
      }
      assert b !in names[..i + 1];
    }
    if Precedes(names, a, b) {
      var k: nat :| k < |names| && a == names[k] && b !in names[..k + 1];
      if k < i {
        InPrefix(names, i, k);
      }
      var n := k + 1;
      if j < n {
        InPrefix(names, n, j);
      }
    }
  }

  /** By topic first, then by severity, then by path in code point order. */
  lemma OrderIs(f: Finding, g: Finding)
    ensures NoLater(f, g)
       <==> || Precedes(TLRS, TlrName(f), TlrName(g))
            || (Level(TLRS, TlrName(f), TlrName(g))
                && (|| Precedes(SEVERITIES, f.severity, g.severity)
                    || (Level(SEVERITIES, f.severity, g.severity) && StringLe(f.path, g.path))))
  {
    TlrPrecedes(f, g);
    TlrPrecedes(g, f);
    SeverityPrecedes(f.severity, g.severity);
    SeverityPrecedes(g.severity, f.severity);
  }

  /** Findings share an entry exactly if they are about one path and ask for one fix. */
  lemma OneTopicIff(f: Finding, g: Finding)
    ensures Key(f) == Key(g) <==> f.path == g.path && f.agentFix == g.agentFix
  {
  }

  /** Each entry of the queue shows its finding's own fields. */
  lemma {:induction false} EntriesShowTheirFindings(reps: seq<Finding>)
    ensures |Fixes(reps)| == |reps|
    ensures forall i | 0 <= i < |reps| ::
              var fix := Fixes(reps)[i];
              && fix.path == reps[i].path && fix.priority == reps[i].severity && fix.ruleId == reps[i].ruleId
              && fix.tlr == reps[i].tlr && fix.lane == reps[i].lane && fix.owner == reps[i].owner
              && fix.task == reps[i].agentFix && fix.why == reps[i].problem
  {
    if reps != [] {
      var n := |reps| - 1;
      EntriesShowTheirFindings(reps[..n]);
      assert Fixes(reps) == Fixes(reps[..n]) + [ToFix(reps[n])];
    }
  }
}
