/** The agent fix queue: findings in priority order, one entry for each path and fix. */
module FixQueue {
  import opened Wrappers
  import opened Text
  import opened Sorting
  import opened Model

  datatype AgentFix = AgentFix(path: string, priority: string, ruleId: Option<string>, tlr: Option<string>,
                               lane: Option<string>, owner: Option<string>, task: string, why: string)

  function ToFix(f: Finding): AgentFix {
    AgentFix(f.path, f.severity, f.ruleId, f.tlr, f.lane, f.owner, f.agentFix, f.problem)
  }

  function SeverityOrder(severity: string): int {
    if severity == "critical" then 0 else if severity == "high" then 1 else if severity == "medium" then 2 else 3
  }

  function TlrOrder(tlr: Option<string>): int {
    var name := if tlr.Some? then tlr.value else "";
    if name == "Security" then 0
    else if name == "Business truth" then 1
    else if name == "Contracts/data" then 2
    else if name == "Verification" then 3
    else if name == "Repair" then 4
    else if name == "Context/setup" then 5
    else 6
  }

  datatype Priority = Priority(tlr: int, severity: int, path: string)

  function FindingPriority(f: Finding): Priority {
    Priority(TlrOrder(f.tlr), SeverityOrder(f.severity), f.path)
  }

  predicate Le(a: Priority, b: Priority) {
    a.tlr < b.tlr
    || (a.tlr == b.tlr && (a.severity < b.severity || (a.severity == b.severity && StringLe(a.path, b.path))))
  }

  predicate NoLater(a: Finding, b: Finding) {
    Le(FindingPriority(a), FindingPriority(b))
  }

  lemma LeTotal(a: Priority, b: Priority)
    ensures Le(a, b) || Le(b, a)
  {
    StringLeTotal(a.path, b.path);
  }

  lemma LeTransitive(a: Priority, b: Priority, c: Priority)
    requires Le(a, b) && Le(b, c)
    ensures Le(a, c)
  {
    if StringLe(a.path, b.path) && StringLe(b.path, c.path) {
      StringLeTransitive(a.path, b.path, c.path);
    }
  }

  lemma NoLaterIsPreorder()
    ensures TotalPreorder(NoLater)
  {
    forall a: Finding, b ensures NoLater(a, b) || NoLater(b, a) {
      LeTotal(FindingPriority(a), FindingPriority(b));
    }
    forall a: Finding, b, c | NoLater(a, b) && NoLater(b, c) ensures NoLater(a, c) {
      LeTransitive(FindingPriority(a), FindingPriority(b), FindingPriority(c));
    }
  }

  /** What an entry is about: findings with one topic share one entry. */
  datatype Topic = Topic(path: string, fix: string)

  function Key(f: Finding): Topic {
    Topic(f.path, f.agentFix)
  }

  ghost predicate HasKey(reps: seq<Finding>, key: Topic) {
    exists i :: 0 <= i < |reps| && Key(reps[i]) == key
  }

  ghost predicate DistinctKeys(reps: seq<Finding>) {
    forall i, j | 0 <= i < j < |reps| :: Key(reps[i]) != Key(reps[j])
  }

  /** The first finding of each key not seen before. */
  function Representatives(ordered: seq<Finding>, seen: set<Topic>): seq<Finding> {
    if ordered == [] then []
    else if Key(ordered[0]) in seen then Representatives(ordered[1..], seen)
    else [ordered[0]] + Representatives(ordered[1..], seen + {Key(ordered[0])})
  }

  function Queued(findings: seq<Finding>): seq<Finding> {
    Representatives(Sort(findings, NoLater), {})
  }

  function Fixes(reps: seq<Finding>): seq<AgentFix> {
    if reps == [] then [] else Fixes(reps[..|reps| - 1]) + [ToFix(reps[|reps| - 1])]
  }

  lemma FixesAppend(reps: seq<Finding>, f: Finding)
    ensures Fixes(reps + [f]) == Fixes(reps) + [ToFix(f)]
  {
  }

  /** One turn of the loop moves the next finding to the representatives, or drops it. */
  lemma RepresentativesStep(all: seq<Finding>, reps: seq<Finding>, ordered: seq<Finding>, i: nat, seen: set<Topic>)
    requires i < |ordered| && all == reps + Representatives(ordered[i..], seen)
    ensures var key := Key(ordered[i]);
            all == if key in seen then reps + Representatives(ordered[i + 1..], seen)
                   else (reps + [ordered[i]]) + Representatives(ordered[i + 1..], seen + {key})
  {
    assert ordered[i..][1..] == ordered[i + 1..];
  }

  method BuildAgentFixQueue(findings: seq<Finding>) returns (queue: seq<AgentFix>)
    ensures queue == Fixes(Queued(findings))
  {
    var ordered := Sort(findings, NoLater);
    queue := OnePerTopic(ordered);
  }

  method OnePerTopic(ordered: seq<Finding>) returns (queue: seq<AgentFix>)
    ensures queue == Fixes(Representatives(ordered, {}))
  {
    var seen: set<Topic> := {};
    queue := [];
    ghost var all, reps: seq<Finding> := Representatives(ordered, {}), [];
    assert ordered[0..] == ordered;
    for i := 0 to |ordered|
      invariant queue == Fixes(reps)
      invariant all == reps + Representatives(ordered[i..], seen)
    {
      var finding := ordered[i];
      RepresentativesStep(all, reps, ordered, i, seen);
      var key := Key(finding);
      if key !in seen {
        seen := seen + {key};
        queue := queue + [ToFix(finding)];
        FixesAppend(reps, finding);
        reps := reps + [finding];
      }
    }
    assert reps + [] == reps;
  }

  lemma {:induction false} RepresentativesAreNew(ordered: seq<Finding>, seen: set<Topic>)
    ensures var reps := Representatives(ordered, seen);
            DistinctKeys(reps) && forall i | 0 <= i < |reps| :: Key(reps[i]) !in seen && reps[i] in ordered
    decreases |ordered|
  {
    if ordered != [] {
      var key := Key(ordered[0]);
      RepresentativesAreNew(ordered[1..], if key in seen then seen else seen + {key});
    }
  }

  lemma {:induction false} RepresentativesCover(ordered: seq<Finding>, seen: set<Topic>, f: Finding)
    requires f in ordered && Key(f) !in seen
    ensures HasKey(Representatives(ordered, seen), Key(f))
    decreases |ordered|
  {
    var key := Key(ordered[0]);
    var reps := Representatives(ordered, seen);
    assert ordered == [ordered[0]] + ordered[1..];
    if key in seen {
      RepresentativesCover(ordered[1..], seen, f);
    } else if Key(f) == key {
      assert Key(reps[0]) == key;
    } else {
      RepresentativesCover(ordered[1..], seen + {key}, f);
      var rest := Representatives(ordered[1..], seen + {key});
      var i :| 0 <= i < |rest| && Key(rest[i]) == Key(f);
      assert reps[i + 1] == rest[i];
    }
  }

  predicate AboutEither(f: Finding, a: Topic, b: Topic) {
    Key(f) == a || Key(f) == b
  }

  /** Of the findings with the keys of two entries, the first one is the earlier entry's. */
  lemma {:induction false} FirstOfTwo(ordered: seq<Finding>, seen: set<Topic>, i: nat, j: nat)
    requires i <= j < |Representatives(ordered, seen)|
    ensures var reps := Representatives(ordered, seen);
            First(ordered, f => AboutEither(f, Key(reps[i]), Key(reps[j]))) == Some(reps[i])
    decreases |ordered|
  {
    var reps := Representatives(ordered, seen);
    var p := (f: Finding) => AboutEither(f, Key(reps[i]), Key(reps[j]));
    RepresentativesAreNew(ordered, seen);
    var key := Key(ordered[0]);
    if key in seen {
      FirstOfTwo(ordered[1..], seen, i, j);
      assert First(ordered, p) == First(ordered[1..], p);
    } else if i > 0 {
      var rest := Representatives(ordered[1..], seen + {key});
      assert reps[i] == rest[i - 1] && reps[j] == rest[j - 1];
      assert Key(reps[0]) == key;
      FirstOfTwo(ordered[1..], seen + {key}, i - 1, j - 1);
      assert First(ordered, p) == First(ordered[1..], p);
    }
  }

  /**
   * For every two entries, the earlier one stands for the least-priority finding, first in input order
   * among equals, of all findings with either key. So the queue is sorted, ties keep the input order and
   * each entry is the best finding of its key.
   */
  lemma QueueIsCanonical(findings: seq<Finding>, i: nat, j: nat)
    requires i <= j < |Queued(findings)|
    ensures var reps := Queued(findings);
            exists k: nat :: IsLeastAt(findings, NoLater, f => AboutEither(f, Key(reps[i]), Key(reps[j])), k)
                             && findings[k] == reps[i]
  {
    var reps := Queued(findings);
    var p := (f: Finding) => AboutEither(f, Key(reps[i]), Key(reps[j]));
    NoLaterIsPreorder();
    FirstOfTwo(Sort(findings, NoLater), {}, i, j);
    SortIsStable(findings, NoLater, p);
    LeastIsLeast(findings, NoLater, p);
  }

  /** The queue is sorted by priority and has exactly one entry for each key of the findings. */
  lemma QueueIsSortedDedup(findings: seq<Finding>)
    ensures var reps := Queued(findings);
            && Sorted(reps, NoLater)
            && DistinctKeys(reps)
            && (forall i | 0 <= i < |reps| :: reps[i] in findings)
            && (forall f | f in findings :: HasKey(reps, Key(f)))
  {
    var ordered := Sort(findings, NoLater);
    var reps := Queued(findings);
    SortElements(findings, NoLater);
    RepresentativesAreNew(ordered, {});
    forall f | f in findings ensures HasKey(reps, Key(f)) {
      RepresentativesCover(ordered, {}, f);
    }
    forall i, j | 0 <= i < j < |reps| ensures NoLater(reps[i], reps[j]) {
      QueueIsCanonical(findings, i, j);
      var p := (f: Finding) => AboutEither(f, Key(reps[i]), Key(reps[j]));
      var k: nat :| IsLeastAt(findings, NoLater, p, k) && findings[k] == reps[i];
      assert reps[j] in findings && p(reps[j]);
    }
  }

  /** What `QueueIsCanonical` says of the queue, asked of any list. */
  ghost predicate Canonical(findings: seq<Finding>, reps: seq<Finding>) {
    && DistinctKeys(reps)
    && (forall f | f in findings :: HasKey(reps, Key(f)))
    && (forall i, j | 0 <= i <= j < |reps| :: Leads(findings, reps[i], reps[j]))
  }

  /** `a` is the least finding, first among equals, of all with the key of `a` or of `b`. */
  ghost predicate Leads(findings: seq<Finding>, a: Finding, b: Finding) {
    exists k: nat :: IsLeastAt(findings, NoLater, f => AboutEither(f, Key(a), Key(b)), k) && findings[k] == a
  }

  lemma LeaderIsUnique(findings: seq<Finding>, a: Finding, b: Finding, c: Finding, d: Finding)
    requires Leads(findings, a, b) && Leads(findings, c, d)
    requires {Key(a), Key(b)} == {Key(c), Key(d)}
    ensures a == c
  {
  }

  lemma QueuedIsCanonical(findings: seq<Finding>)
    ensures Canonical(findings, Queued(findings))
  {
    var reps := Queued(findings);
    QueueIsSortedDedup(findings);
    forall i, j | 0 <= i <= j < |reps| ensures Leads(findings, reps[i], reps[j]) {
      QueueIsCanonical(findings, i, j);
    }
  }

  lemma {:induction false} Climb(at: seq<nat>, i: nat)
    requires i < |at| && forall k, l | 0 <= k < l < |at| :: at[k] < at[l]
    ensures i <= at[i]
  {
    if i > 0 {
      Climb(at, i - 1);
    }
  }

  /** An increasing list of indices that misses none counts up from zero. */
  lemma {:induction false} IncreasingOnto(at: seq<nat>, n: nat, i: nat)
    requires forall k | 0 <= k < |at| :: at[k] < n
    requires forall k, l | 0 <= k < l < |at| :: at[k] < at[l]
    requires forall v: nat | v < n :: v in at
    requires i <= |at|
    ensures forall k | 0 <= k < i :: at[k] == k
    decreases i
  {
    if i > 0 {
      IncreasingOnto(at, n, i - 1);
      Climb(at, i - 1);
      assert i - 1 in at;
    }
  }

  lemma IncreasingCovers(at: seq<nat>, n: nat)
    requires forall k | 0 <= k < |at| :: at[k] < n
    requires forall k, l | 0 <= k < l < |at| :: at[k] < at[l]
    requires forall v: nat | v < n :: v in at
    ensures |at| == n && forall k | 0 <= k < n :: at[k] == k
  {
    IncreasingOnto(at, n, |at|);
    assert |at| < n ==> |at| in at;
    if at != [] {
      Climb(at, |at| - 1);
    }
  }

  /** Every entry of a canonical list is an entry of the queue. */
  lemma FindInQueue(findings: seq<Finding>, other: seq<Finding>, i: nat) returns (r: nat)
    requires Canonical(findings, other) && i < |other|
    ensures r < |Queued(findings)| && Queued(findings)[r] == other[i]
  {
    var reps := Queued(findings);
    QueuedIsCanonical(findings);
    assert Leads(findings, other[i], other[i]);
    assert HasKey(reps, Key(other[i]));
    r :| r < |reps| && Key(reps[r]) == Key(other[i]);
    assert Leads(findings, reps[r], reps[r]);
    LeaderIsUnique(findings, reps[r], reps[r], other[i], other[i]);
  }

  /** ... and in the same order. */
  lemma SameOrder(findings: seq<Finding>, other: seq<Finding>, k: nat, l: nat, a: nat, b: nat)
    requires Canonical(findings, other) && k < l < |other|
    requires a < |Queued(findings)| && b < |Queued(findings)|
    requires Queued(findings)[a] == other[k] && Queued(findings)[b] == other[l]
    ensures a < b
  {
    var reps := Queued(findings);
    QueuedIsCanonical(findings);
    assert Leads(findings, other[k], other[l]);
    assert Key(other[k]) != Key(other[l]);
    if b < a {
      assert false;
    }
  }

  lemma FindInOther(findings: seq<Finding>, other: seq<Finding>, v: nat) returns (i: nat)
    requires Canonical(findings, other) && v < |Queued(findings)|
    ensures i < |other| && Key(other[i]) == Key(Queued(findings)[v])
  {
    var reps := Queued(findings);
    QueueIsSortedDedup(findings);
    assert HasKey(other, Key(reps[v]));
    i :| i < |other| && Key(other[i]) == Key(reps[v]);
  }

  /** There is only one canonical list: the queue does not depend on how it is computed. */
  lemma QueueIsUnique(findings: seq<Finding>, other: seq<Finding>)
    requires Canonical(findings, other)
    ensures other == Queued(findings)
  {
    var reps := Queued(findings);
    var at: seq<nat> := [];
    for i := 0 to |other|
      invariant |at| == i && forall k | 0 <= k < i :: at[k] < |reps| && reps[at[k]] == other[k]
    {
      var r := FindInQueue(findings, other, i);
      at := at + [r];
    }
    forall k, l | 0 <= k < l < |at| ensures at[k] < at[l] {
      SameOrder(findings, other, k, l, at[k], at[l]);
    }
    forall v: nat | v < |reps| ensures v in at {
      var i := FindInOther(findings, other, v);
      QueueIsSortedDedup(findings);
      assert Key(reps[at[i]]) == Key(reps[v]);
      assert at[i] == v;
    }
    IncreasingCovers(at, |reps|);
  }
}
