/** Packing repository files into an agent's context under a token budget. */
module ContextPack {
  import opened Wrappers
  import opened Sorting
  import opened Text

  const USIZE_MAX: nat := 0xFFFF_FFFF_FFFF_FFFF
  const MAX_ALLOWED_PATHS := 12

  datatype Entry = Entry(path: string, estimatedTokens: nat, reason: string, sourceTrust: string)
  datatype Excluded = Excluded(path: string, reason: string)
  datatype Pack = Pack(included: seq<Entry>, excluded: seq<Excluded>, estimatedTotal: nat, trust: map<string, nat>)

  /** The running total left the range of a machine word. */
  datatype Overflow = Overflow

  /** What packing reads from the repository: file texts as bytes, generated zones, and reasons. */
  datatype Repo = Repo(read: string -> Option<string>, generated: string -> bool, reason: string -> string)

  // ----- token estimates -----

  function CountNewlines(text: string): nat {
    if text == [] then 0 else (if text[0] == '\n' then 1 else 0) + CountNewlines(text[1..])
  }

  /** How many lines a text has; a final newline ends a line rather than starting one. */
  function LineCount(text: string): nat {
    CountNewlines(text) + if text != [] && text[|text| - 1] != '\n' then 1 else 0
  }

  function EstimateTokens(text: string): nat {
    var tokens := |text| / 4 + LineCount(text);
    if tokens > USIZE_MAX then USIZE_MAX else if tokens < 1 then 1 else tokens
  }

  function EstimateForPath(repo: Repo, path: string): nat {
    match repo.read(path)
    case Some(text) => EstimateTokens(text)
    case None => 128
  }

  ghost function Estimator(repo: Repo): string -> nat {
    path => EstimateForPath(repo, path)
  }

  /** No file is free, and appending to a file never makes it cheaper. */
  lemma EstimateGrows(text: string, more: string)
    ensures 1 <= EstimateTokens(text) <= EstimateTokens(text + more) <= USIZE_MAX
  {
    NewlinesAppend(text, more);
    if more != [] {
      assert (text + more)[|text + more| - 1] == more[|more| - 1];
      NewlineEnd(more);
    } else {
      assert text + more == text;
    }
  }

  lemma {:induction false} NewlinesAppend(text: string, more: string)
    ensures CountNewlines(text + more) == CountNewlines(text) + CountNewlines(more)
  {
    if text == [] {
      assert text + more == more;
    } else {
      assert (text + more)[1..] == text[1..] + more;
      NewlinesAppend(text[1..], more);
    }
  }

  lemma NewlineEnd(more: string)
    requires more != []
    ensures more[|more| - 1] == '\n' ==> CountNewlines(more) >= 1
  {
  }

  function SourceTrust(repo: Repo, path: string): string {
    if "reference/" <= path then "untrusted-input"
    else if path == "AGENTS.md" || "agent/" <= path || ".agents/" <= path || ".codex/" <= path then "trusted-policy"
    else if repo.generated(path) then "generated-artifact"
    else if "target/jankurai/" <= path then "proof-evidence"
    else if "docs/" <= path || "paper/" <= path || path == "README.md" then "docs"
    else "repo-code"
  }

  // ----- what a packing is -----

  function Candidates(readFirst: seq<string>, scope: seq<string>, allowed: seq<string>): seq<string> {
    Distinct(readFirst + scope + if |allowed| > MAX_ALLOWED_PATHS then allowed[..MAX_ALLOWED_PATHS] else allowed)
  }

  /** The elements whose flag is `wanted`, in order. */
  ghost function Select<T>(xs: seq<T>, flags: seq<bool>, wanted: bool): seq<T>
    requires |flags| == |xs|
  {
    if xs == [] then []
    else
      var n := |xs| - 1;
      Select(xs[..n], flags[..n], wanted) + if flags[n] == wanted then [xs[n]] else []
  }

  ghost function Cost(paths: seq<string>, estimate: string -> nat): nat {
    if paths == [] then 0 else Cost(paths[..|paths| - 1], estimate) + estimate(paths[|paths| - 1])
  }

  /** A candidate is kept exactly when it fits beside the ones kept before it. */
  ghost predicate Greedy(paths: seq<string>, flags: seq<bool>, estimate: string -> nat, budget: nat) {
    && |flags| == |paths|
    && forall i | 0 <= i < |paths| ::
         flags[i] <==> Cost(Select(paths[..i], flags[..i], true), estimate) + estimate(paths[i]) <= budget
  }

  lemma {:induction false} GreedyIsUnique(paths: seq<string>, a: seq<bool>, b: seq<bool>, estimate: string -> nat,
                                          budget: nat)
    requires Greedy(paths, a, estimate, budget) && Greedy(paths, b, estimate, budget)
    ensures a == b
  {
    if paths != [] {
      var n := |paths| - 1;
      GreedyPrefix(paths, a, estimate, budget, n);
      GreedyPrefix(paths, b, estimate, budget, n);
      GreedyIsUnique(paths[..n], a[..n], b[..n], estimate, budget);
      LastFlagAgrees(paths, a, b, estimate, budget, n);
    }
  }

  lemma LastFlagAgrees(paths: seq<string>, a: seq<bool>, b: seq<bool>, estimate: string -> nat, budget: nat, n: nat)
    requires Greedy(paths, a, estimate, budget) && Greedy(paths, b, estimate, budget)
    requires |paths| == n + 1 && a[..n] == b[..n]
    ensures a == b
  {
    assert a == a[..n] + [a[n]] && b == b[..n] + [b[n]];
  }

  lemma GreedyPrefix(paths: seq<string>, flags: seq<bool>, estimate: string -> nat, budget: nat, n: nat)
    requires Greedy(paths, flags, estimate, budget) && n <= |paths|
    ensures Greedy(paths[..n], flags[..n], estimate, budget)
  {
    forall i | 0 <= i < n
      ensures flags[..n][i] <==>
                Cost(Select(paths[..n][..i], flags[..n][..i], true), estimate) + estimate(paths[..n][i]) <= budget
    {
      assert paths[..n][..i] == paths[..i] && flags[..n][..i] == flags[..i];
    }
  }

  lemma {:induction false} CostAppend(a: seq<string>, b: seq<string>, estimate: string -> nat)
    ensures Cost(a + b, estimate) == Cost(a, estimate) + Cost(b, estimate)
  {
    if b == [] {
      assert a + b == a;
    } else {
      var n := |b| - 1;
      CostAppend(a, b[..n], estimate);
      assert (a + b)[..|a + b| - 1] == a + b[..n];
    }
  }

  lemma CostOne(paths: seq<string>, path: string, estimate: string -> nat)
    ensures Cost(paths + [path], estimate) == Cost(paths, estimate) + estimate(path)
  {
  }

  /** The last candidate joins the kept or the dropped ones. */
  lemma SelectLast<T>(xs: seq<T>, flags: seq<bool>, n: nat)
    requires |flags| == |xs| == n + 1
    ensures Select(xs, flags, flags[n]) == Select(xs[..n], flags[..n], flags[n]) + [xs[n]]
    ensures Select(xs, flags, !flags[n]) == Select(xs[..n], flags[..n], !flags[n])
  {
  }

  /** Keeping and dropping split the candidates: nothing is lost or repeated. */
  lemma {:induction false} SelectSplits(paths: seq<string>, flags: seq<bool>)
    requires |flags| == |paths|
    ensures multiset(Select(paths, flags, true)) + multiset(Select(paths, flags, false)) == multiset(paths)
  {
    if paths != [] {
      var n := |paths| - 1;
      SelectSplits(paths[..n], flags[..n]);
      assert paths == paths[..n] + [paths[n]];
      SelectLast(paths, flags, n);
    }
  }

  /** Every candidate's estimate is either spent or saved. */
  lemma {:induction false} CostSplits(paths: seq<string>, flags: seq<bool>, estimate: string -> nat)
    requires |flags| == |paths|
    ensures Cost(Select(paths, flags, true), estimate) + Cost(Select(paths, flags, false), estimate)
         == Cost(paths, estimate)
  {
    if paths != [] {
      var n := |paths| - 1;
      CostSplits(paths[..n], flags[..n], estimate);
      SelectLast(paths, flags, n);
      CostOne(Select(paths[..n], flags[..n], flags[n]), paths[n], estimate);
    }
  }

  /** The kept files stay within the budget, and none of the dropped ones would still fit at the end. */
  lemma {:induction false} GreedyIsMaximal(paths: seq<string>, flags: seq<bool>, estimate: string -> nat, budget: nat)
    requires Greedy(paths, flags, estimate, budget)
    ensures Cost(Select(paths, flags, true), estimate) <= budget
    ensures forall i | 0 <= i < |paths| && !flags[i] ::
              Cost(Select(paths, flags, true), estimate) + estimate(paths[i]) > budget
  {
    if paths != [] {
      var n := |paths| - 1;
      GreedyPrefix(paths, flags, estimate, budget, n);
      GreedyIsMaximal(paths[..n], flags[..n], estimate, budget);
      SelectLast(paths, flags, n);
      CostOne(Select(paths[..n], flags[..n], true), paths[n], estimate);
      MaximalStep(paths, flags, n, estimate, budget, Cost(Select(paths, flags, true), estimate),
                  Cost(Select(paths[..n], flags[..n], true), estimate));
    }
  }

  lemma MaximalStep(paths: seq<string>, flags: seq<bool>, n: nat, estimate: string -> nat, budget: nat, now: nat,
                    before: nat)
    requires |flags| == |paths| == n + 1 && before <= now
    requires forall i | 0 <= i < n && !flags[..n][i] :: before + estimate(paths[..n][i]) > budget
    requires !flags[n] ==> now + estimate(paths[n]) > budget
    ensures forall i | 0 <= i < |paths| && !flags[i] :: now + estimate(paths[i]) > budget
  {
    forall i | 0 <= i < n && !flags[i] ensures now + estimate(paths[i]) > budget {
      assert !flags[..n][i] && paths[..n][i] == paths[i];
    }
  }

  /** A larger budget can take a file away: the greedy choice is maximal, not monotone. */
  lemma LargerBudgetCanDropAFile()
    ensures exists estimate: string -> nat, a, b ::
              && Greedy(["a", "b"], a, estimate, 2) && Greedy(["a", "b"], b, estimate, 3)
              && a == [false, true] && b == [true, false]
  {
    var estimate: string -> nat := path => if path == "a" then 3 else 2;
    var paths := ["a", "b"];
    assert paths[..0] == [] && paths[..1] == ["a"];
    assert ["a"][..0] == [];
    GreedyPair(paths, [false, true], estimate, 2);
    GreedyPair(paths, [true, false], estimate, 3);
  }

  lemma GreedyPair(paths: seq<string>, flags: seq<bool>, estimate: string -> nat, budget: nat)
    requires |paths| == |flags| == 2
    requires flags[0] <==> estimate(paths[0]) <= budget
    requires flags[1] <==> (if flags[0] then estimate(paths[0]) else 0) + estimate(paths[1]) <= budget
    ensures Greedy(paths, flags, estimate, budget)
  {
  }

  // ----- trust summary -----

  ghost function CountTrust(included: seq<Entry>, trust: string): nat {
    if included == [] then 0
    else
      var n := |included| - 1;
      CountTrust(included[..n], trust) + if included[n].sourceTrust == trust then 1 else 0
  }

  ghost predicate Summarises(trust: map<string, nat>, included: seq<Entry>) {
    forall t :: (t in trust <==> CountTrust(included, t) > 0) && (t in trust ==> trust[t] == CountTrust(included, t))
  }

  ghost function Total(m: map<string, nat>): nat
    decreases |m|
  {
    if m == map[] then 0
    else
      var k :| k in m;
      m[k] + Total(m - {k})
  }

  lemma {:induction false} TotalWithout(m: map<string, nat>, k: string)
    requires k in m
    ensures Total(m) == m[k] + Total(m - {k})
    decreases |m|
  {
    var j :| j in m && Total(m) == m[j] + Total(m - {j});
    if j != k {
      TotalWithout(m - {j}, k);
      TotalWithout(m - {k}, j);
      assert m - {j} - {k} == m - {k} - {j};
    }
  }

  lemma TotalBump(m: map<string, nat>, k: string)
    ensures Total(m[k := (if k in m then m[k] else 0) + 1]) == Total(m) + 1
  {
    var after := m[k := (if k in m then m[k] else 0) + 1];
    TotalWithout(after, k);
    assert after - {k} == m - {k};
    if k in m {
      TotalWithout(m, k);
    } else {
      assert m - {k} == m;
    }
  }

  // ----- packing -----

  /** The entries carry these paths and this repository's estimate and trust for each. */
  ghost predicate Describes(included: seq<Entry>, paths: seq<string>, repo: Repo) {
    && |included| == |paths|
    && forall i | 0 <= i < |paths| ::
         included[i]
         == Entry(paths[i], EstimateForPath(repo, paths[i]), repo.reason(paths[i]), SourceTrust(repo, paths[i]))
  }

  function Exclude(path: string, budget: nat): Excluded {
    Excluded(path, "excluded by --max-tokens budget " + Decimal(budget))
  }

  ghost predicate Lists(excluded: seq<Excluded>, paths: seq<string>, budget: nat) {
    && |excluded| == |paths|
    && forall i | 0 <= i < |paths| :: excluded[i] == Exclude(paths[i], budget)
  }

  ghost predicate Packs(pack: Pack, paths: seq<string>, flags: seq<bool>, repo: Repo, budget: nat) {
    && |flags| == |paths|
    && Describes(pack.included, Select(paths, flags, true), repo)
    && Lists(pack.excluded, Select(paths, flags, false), budget)
    && pack.estimatedTotal == Cost(Select(paths, flags, true), Estimator(repo))
    && Summarises(pack.trust, pack.included) && Total(pack.trust) == |pack.included|
  }

  function SaturatingAdd(a: nat, b: nat): nat {
    if a + b > USIZE_MAX then USIZE_MAX else a + b
  }

  /**
   * Splits the candidates into a greedy fit and the rest, in order. `flags` says which were kept. The
   * saturating test lets everything through when the budget is the largest word, where the total may overflow.
   */
  method BuildContextFiles(repo: Repo, readFirst: seq<string>, scope: seq<string>, allowed: seq<string>, budget: nat)
    returns (r: Result<Pack, Overflow>, ghost flags: seq<bool>)
    requires budget <= USIZE_MAX
    ensures r.Ok? ==>
              var paths := Candidates(readFirst, scope, allowed);
              && Packs(r.value, paths, flags, repo, budget)
              && Greedy(paths, flags, Estimator(repo), budget)
    ensures r.Err? <==> budget == USIZE_MAX
                        && Cost(Candidates(readFirst, scope, allowed), Estimator(repo)) > USIZE_MAX
  {
    var paths := CollectCandidates(readFirst, scope, allowed);
    ghost var estimate := Estimator(repo);
    var pack := Pack([], [], 0, map[]);
    flags := [];
    for i := 0 to |paths|
      invariant |flags| == i
      invariant Packs(pack, paths[..i], flags, repo, budget)
      invariant Greedy(paths[..i], flags, estimate, budget)
      invariant pack.estimatedTotal <= budget
      invariant budget == USIZE_MAX ==> pack.estimatedTotal == Cost(paths[..i], estimate)
    {
      SplitAround(paths, i);
      CostParts(paths[..i], paths[i], paths[i + 1..], paths[..i + 1], paths, estimate);
      var size := EstimateForPath(repo, paths[i]);
      var fits := SaturatingAdd(pack.estimatedTotal, size) <= budget;
      if fits && pack.estimatedTotal + size > USIZE_MAX {
        return Err(Overflow), flags;
      }
      OneMoreGreedy(paths[..i], flags, paths[i], fits, estimate, budget);
      if fits {
        PackedKept(pack, paths[..i], flags, paths[i], repo, budget);
        pack := Keep(repo, pack, paths[i]);
      } else {
        PackedDropped(pack, paths[..i], flags, paths[i], repo, budget);
        pack := pack.(excluded := pack.excluded + [Exclude(paths[i], budget)]);
      }
      flags := flags + [fits];
    }
    assert paths[..|paths|] == paths;
    r := Ok(pack);
  }

  method CollectCandidates(readFirst: seq<string>, scope: seq<string>, allowed: seq<string>)
    returns (candidates: seq<string>)
    ensures candidates == Candidates(readFirst, scope, allowed)
  {
    var first := if |allowed| > MAX_ALLOWED_PATHS then allowed[..MAX_ALLOWED_PATHS] else allowed;
    var all := readFirst + scope + first;
    candidates := [];
    for i := 0 to |all|
      invariant candidates == Distinct(all[..i])
    {
      assert all[..i + 1][..i] == all[..i];
      if all[i] !in candidates {
        candidates := candidates + [all[i]];
      }
    }
    assert all[..|all|] == all;
  }

  function Keep(repo: Repo, pack: Pack, path: string): Pack {
    var size, trust := EstimateForPath(repo, path), SourceTrust(repo, path);
    Pack(pack.included + [Entry(path, size, repo.reason(path), trust)], pack.excluded, pack.estimatedTotal + size,
         pack.trust[trust := (if trust in pack.trust then pack.trust[trust] else 0) + 1])
  }

  lemma SplitAround<T>(xs: seq<T>, n: nat)
    requires n < |xs|
    ensures xs[..n + 1] == xs[..n] + [xs[n]] && xs == xs[..n + 1] + xs[n + 1..]
  {
  }

  lemma CostParts(before: seq<string>, path: string, rest: seq<string>, upTo: seq<string>, all: seq<string>,
                  estimate: string -> nat)
    requires upTo == before + [path] && all == upTo + rest
    ensures Cost(before, estimate) + estimate(path) == Cost(upTo, estimate) <= Cost(all, estimate)
  {
    CostOne(before, path, estimate);
    CostAppend(upTo, rest, estimate);
  }

  lemma OneMoreFlag(paths: seq<string>, flags: seq<bool>, path: string, fits: bool)
    requires |flags| == |paths|
    ensures Select(paths + [path], flags + [fits], fits) == Select(paths, flags, fits) + [path]
    ensures Select(paths + [path], flags + [fits], !fits) == Select(paths, flags, !fits)
  {
  }

  lemma OneMoreGreedy(paths: seq<string>, flags: seq<bool>, path: string, fits: bool, estimate: string -> nat,
                      budget: nat)
    requires Greedy(paths, flags, estimate, budget)
    requires fits <==> Cost(Select(paths, flags, true), estimate) + estimate(path) <= budget
    ensures Greedy(paths + [path], flags + [fits], estimate, budget)
  {
    var morePaths, moreFlags := paths + [path], flags + [fits];
    forall i | 0 <= i < |morePaths|
      ensures moreFlags[i] <==>
                Cost(Select(morePaths[..i], moreFlags[..i], true), estimate) + estimate(morePaths[i]) <= budget
    {
      assert i < |paths| ==> morePaths[..i] == paths[..i] && moreFlags[..i] == flags[..i];
      assert i == |paths| ==> morePaths[..i] == paths && moreFlags[..i] == flags;
    }
  }

  lemma PackedKept(pack: Pack, paths: seq<string>, flags: seq<bool>, path: string, repo: Repo, budget: nat)
    requires Packs(pack, paths, flags, repo, budget)
    ensures Packs(Keep(repo, pack, path), paths + [path], flags + [true], repo, budget)
  {
    OneMoreFlag(paths, flags, path, true);
    CostOne(Select(paths, flags, true), path, Estimator(repo));
    OneMoreTrust(pack, path, repo);
    OneMoreEntry(pack, Select(paths, flags, true), path, repo);
  }

  lemma OneMoreEntry(pack: Pack, kept: seq<string>, path: string, repo: Repo)
    requires Describes(pack.included, kept, repo)
    ensures Describes(Keep(repo, pack, path).included, kept + [path], repo)
  {
  }

  lemma PackedDropped(pack: Pack, paths: seq<string>, flags: seq<bool>, path: string, repo: Repo, budget: nat)
    requires Packs(pack, paths, flags, repo, budget)
    ensures Packs(pack.(excluded := pack.excluded + [Exclude(path, budget)]), paths + [path], flags + [false], repo,
                  budget)
  {
    OneMoreFlag(paths, flags, path, false);
    var dropped := Select(paths, flags, false);
    assert Lists(pack.excluded + [Exclude(path, budget)], dropped + [path], budget);
  }

  lemma OneMoreTrust(pack: Pack, path: string, repo: Repo)
    requires Summarises(pack.trust, pack.included)
    ensures Summarises(Keep(repo, pack, path).trust, Keep(repo, pack, path).included)
    ensures Total(Keep(repo, pack, path).trust) == Total(pack.trust) + 1
  {
    var after := Keep(repo, pack, path);
    var entry := after.included[|pack.included|];
    assert after.included == pack.included + [entry];
    assert after.included[..|pack.included|] == pack.included;
    forall t
      ensures t in after.trust <==> CountTrust(after.included, t) > 0
      ensures t in after.trust ==> after.trust[t] == CountTrust(after.included, t)
    {
      assert CountTrust(after.included, t) == CountTrust(pack.included, t) + if entry.sourceTrust == t then 1 else 0;
      assert t in pack.trust <==> CountTrust(pack.included, t) > 0;
    }
    TotalBump(pack.trust, entry.sourceTrust);
  }
}
