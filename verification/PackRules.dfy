/** What packing estimates, trusts and considers, in terms of the texts' characters and the paths' prefixes. */
module PackRules {
  import opened Wrappers
  import opened Sorting
  import opened ContextPack

  // ----- estimates -----

  /** The positions where a line starts: at the front, and after each newline that is not the last character. */
  ghost function LineStarts(text: string): set<int> {
    set i | 0 <= i < |text| && StartsLine(text, i)
  }

  ghost predicate StartsLine(text: string, i: int)
    requires 0 <= i < |text|
  {
    i == 0 || text[i - 1] == '\n'
  }

  lemma {:induction false} NewlinesAre(text: string)
    ensures CountNewlines(text) == |set i | 0 <= i < |text| && text[i] == '\n'|
  {
    var all := set i | 0 <= i < |text| && text[i] == '\n';
    if text == [] {
      assert all == {};
    } else {
      var n := |text| - 1;
      var front := text[..n];
      NewlinesAre(front);
      assert text == front + [text[n]];
      NewlinesAppend(front, [text[n]]);
      OneCharacter(text[n]);
      var before := set i | 0 <= i < n && front[i] == '\n';
      assert all == before + if text[n] == '\n' then {n} else {};
      assert n !in before;
    }
  }

  lemma OneCharacter(c: char)
    ensures CountNewlines([c]) == if c == '\n' then 1 else 0
  {
    assert [c][1..] == [];
    assert CountNewlines([]) == 0;
  }

  /** A text has as many lines as there are positions where one starts. */
  lemma {:induction false} LinesAreStarts(text: string)
    ensures LineCount(text) == |LineStarts(text)|
  {
    if text == [] {
      assert LineStarts(text) == {};
    } else {
      var n := |text| - 1;
      var front := text[..n];
      LinesAreStarts(front);
      assert text == front + [text[n]];
      NewlinesAppend(front, [text[n]]);
      OneCharacter(text[n]);
      StartsOneMore(text, front, n);
    }
  }

  lemma StartsOneMore(text: string, front: string, n: nat)
    requires |text| == n + 1 && front == text[..n]
    ensures |LineStarts(text)| == |LineStarts(front)| + if n == 0 || text[n - 1] == '\n' then 1 else 0
  {
    var more: set<int> := if n == 0 || text[n - 1] == '\n' then {n} else {};
    forall i ensures i in LineStarts(text) <==> i in LineStarts(front) + more {
      assert 0 < i < n ==> text[i - 1] == front[i - 1];
    }
    assert LineStarts(text) == LineStarts(front) + more;
    assert n !in LineStarts(front);
  }

  /** A file costs one token for every four bytes and one for every line, at least 1; an unreadable one costs 128. */
  lemma EstimateIs(repo: Repo, path: string)
    ensures match repo.read(path)
            case None => EstimateForPath(repo, path) == 128
            case Some(text) =>
              var tokens := |text| / 4 + |LineStarts(text)|;
              && (tokens == 0 ==> EstimateForPath(repo, path) == 1)
              && (0 < tokens <= 18446744073709551615 ==> EstimateForPath(repo, path) == tokens)
              && (tokens > 18446744073709551615 ==> EstimateForPath(repo, path) == 18446744073709551615)
  {
    if repo.read(path).Some? {
      LinesAreStarts(repo.read(path).value);
    }
  }

  // ----- trust -----

  ghost predicate StartsWithAny(path: string, prefixes: seq<string>) {
    exists i :: 0 <= i < |prefixes| && prefixes[i] <= path
  }

  ghost predicate Policy(path: string) {
    path == "AGENTS.md" || StartsWithAny(path, ["agent/", ".agents/", ".codex/"])
  }

  ghost predicate Docs(path: string) {
    path == "README.md" || StartsWithAny(path, ["docs/", "paper/"])
  }

  /** References are never trusted, policy always is, and being generated outranks where else a file lies. */
  lemma TrustIs(repo: Repo, path: string)
    ensures SourceTrust(repo, path) == "untrusted-input" <==> StartsWithAny(path, ["reference/"])
    ensures SourceTrust(repo, path) == "trusted-policy" <==> Policy(path)
    ensures SourceTrust(repo, path) == "generated-artifact"
       <==> repo.generated(path) && !Policy(path) && !StartsWithAny(path, ["reference/"])
    ensures SourceTrust(repo, path) == "proof-evidence"
       <==> StartsWithAny(path, ["target/jankurai/"]) && !repo.generated(path)
    ensures SourceTrust(repo, path) == "docs" <==> Docs(path) && !repo.generated(path)
    ensures SourceTrust(repo, path)
         in {"untrusted-input", "trusted-policy", "generated-artifact", "proof-evidence", "docs", "repo-code"}
  {
    var trust := SourceTrust(repo, path);
    PrefixesApart(path);
    OnePrefix(path, "reference/");
    OnePrefix(path, "target/jankurai/");
    assert StartsWithAny(path, ["agent/", ".agents/", ".codex/"])
      <==> "agent/" <= path || ".agents/" <= path || ".codex/" <= path by {
      ThreePrefixes(path, "agent/", ".agents/", ".codex/");
    }
    assert StartsWithAny(path, ["docs/", "paper/"]) <==> "docs/" <= path || "paper/" <= path by {
      TwoPrefixes(path, "docs/", "paper/");
    }
    NamesDiffer();
  }

  lemma OnePrefix(path: string, a: string)
    ensures StartsWithAny(path, [a]) <==> a <= path
  {
    assert [a][0] == a;
  }

  lemma TwoPrefixes(path: string, a: string, b: string)
    ensures StartsWithAny(path, [a, b]) <==> a <= path || b <= path
  {
    var all := [a, b];
    assert all[0] == a && all[1] == b;
  }

  lemma ThreePrefixes(path: string, a: string, b: string, c: string)
    ensures StartsWithAny(path, [a, b, c]) <==> a <= path || b <= path || c <= path
  {
    var all := [a, b, c];
    assert all[0] == a && all[1] == b && all[2] == c;
  }

  /** No path starts in two of these ways. */
  lemma PrefixesApart(path: string)
    ensures "reference/" <= path ==> path[0] == 'r'
    ensures "agent/" <= path ==> path[0] == 'a'
    ensures ".agents/" <= path || ".codex/" <= path ==> path[0] == '.'
    ensures "target/jankurai/" <= path ==> path[0] == 't'
    ensures "docs/" <= path ==> path[0] == 'd'
    ensures "paper/" <= path ==> path[0] == 'p'
  {
  }

  lemma NamesDiffer()
    ensures |"untrusted-input"| == 15 && |"trusted-policy"| == 14 && |"generated-artifact"| == 18
    ensures "trusted-policy" != "proof-evidence" && "docs" != "repo-code"
  {
    assert "trusted-policy"[0] == 't' && "proof-evidence"[0] == 'p';
  }

  // ----- candidates -----

  /** What is considered: the files to read first, those in scope and the first twelve allowed ones, each once. */
  lemma CandidatesAre(readFirst: seq<string>, scope: seq<string>, allowed: seq<string>, path: string)
    ensures NoDup(Candidates(readFirst, scope, allowed))
    ensures path in Candidates(readFirst, scope, allowed)
       <==> path in readFirst || path in scope || exists i :: 0 <= i < |allowed| && i < 12 && allowed[i] == path
  {
    var first := if |allowed| > 12 then allowed[..12] else allowed;
    DistinctSpec(readFirst + scope + first);
    assert path in first <==> exists i :: 0 <= i < |allowed| && i < 12 && allowed[i] == path;
  }

  // ----- what a pack says -----

  ghost function ChosenAt(paths: seq<string>, flags: seq<bool>, wanted: bool, i: nat): Option<string> {
    if i < |paths| && i < |flags| && flags[i] == wanted then Some(paths[i]) else None
  }

  lemma {:induction false} ChosenOfPrefix(paths: seq<string>, flags: seq<bool>, wanted: bool, n: nat,
                                          pick: nat -> Option<string>)
    requires n <= |paths| == |flags| && forall i: nat :: pick(i) == ChosenAt(paths, flags, wanted, i)
    ensures Picks(Select(paths[..n], flags[..n], wanted), n, pick)
  {
    if n == 0 {
      PicksNothing(pick);
    } else {
      var m := n - 1;
      ChosenOfPrefix(paths, flags, wanted, m, pick);
      assert paths[..n][..m] == paths[..m] && flags[..n][..m] == flags[..m];
      PicksOneMore(Select(paths[..m], flags[..m], wanted), m, pick, Select(paths[..n], flags[..n], wanted));
    }
  }

  lemma Chosen(paths: seq<string>, flags: seq<bool>, wanted: bool)
    requires |flags| == |paths|
    ensures Picks(Select(paths, flags, wanted), |paths|, (i: nat) => ChosenAt(paths, flags, wanted, i))
  {
    ChosenOfPrefix(paths, flags, wanted, |paths|, (i: nat) => ChosenAt(paths, flags, wanted, i));
    assert paths[..|paths|] == paths && flags[..|flags|] == flags;
  }

  ghost function OfTrust(included: seq<Entry>, trust: string): set<int> {
    set i | 0 <= i < |included| && included[i].sourceTrust == trust
  }

  lemma OfTrustOneMore(front: seq<Entry>, last: Entry, trust: string)
    ensures |OfTrust(front + [last], trust)| == |OfTrust(front, trust)| + if last.sourceTrust == trust then 1 else 0
  {
    var included := front + [last];
    assert OfTrust(included, trust)
        == OfTrust(front, trust) + if last.sourceTrust == trust then {|front|} else {};
  }

  lemma {:induction false} TrustCounts(included: seq<Entry>, trust: string)
    ensures CountTrust(included, trust) == |OfTrust(included, trust)|
  {
    if included == [] {
      assert OfTrust(included, trust) == {};
    } else {
      var n := |included| - 1;
      TrustCounts(included[..n], trust);
      OfTrustOneMore(included[..n], included[n], trust);
      assert included == included[..n] + [included[n]];
    }
  }

  /** The summary counts the entries of each trust there is. */
  lemma SummarySays(summary: map<string, nat>, included: seq<Entry>, trust: string)
    requires Summarises(summary, included)
    ensures trust in summary <==> exists i :: 0 <= i < |included| && included[i].sourceTrust == trust
    ensures trust in summary ==> summary[trust] == |OfTrust(included, trust)|
  {
    TrustCounts(included, trust);
    if i :| 0 <= i < |included| && included[i].sourceTrust == trust {
      assert i in OfTrust(included, trust);
    }
    if trust in summary {
      var i :| i in OfTrust(included, trust);
    }
  }

  ghost function PathsOf(included: seq<Entry>): seq<string> {
    seq(|included|, i requires 0 <= i < |included| => included[i].path)
  }

  /** The entries are the chosen paths in order, each with its own estimate and trust. */
  lemma EntriesSay(included: seq<Entry>, paths: seq<string>, flags: seq<bool>, repo: Repo)
    requires |flags| == |paths| && Describes(included, Select(paths, flags, true), repo)
    ensures Picks(PathsOf(included), |paths|, (i: nat) => ChosenAt(paths, flags, true, i))
    ensures forall i | 0 <= i < |included| ::
              && included[i].estimatedTokens == EstimateForPath(repo, included[i].path)
              && included[i].sourceTrust == SourceTrust(repo, included[i].path)
              && included[i].reason == repo.reason(included[i].path)
  {
    Chosen(paths, flags, true);
    assert PathsOf(included) == Select(paths, flags, true);
  }

  ghost function ExcludedPaths(excluded: seq<Excluded>): seq<string> {
    seq(|excluded|, i requires 0 <= i < |excluded| => excluded[i].path)
  }

  /** The other paths are listed as excluded, in order. */
  lemma ExcludedSay(excluded: seq<Excluded>, paths: seq<string>, flags: seq<bool>, budget: nat)
    requires |flags| == |paths| && Lists(excluded, Select(paths, flags, false), budget)
    ensures Picks(ExcludedPaths(excluded), |paths|, (i: nat) => ChosenAt(paths, flags, false, i))
  {
    Chosen(paths, flags, false);
    assert ExcludedPaths(excluded) == Select(paths, flags, false);
  }
}
