/** Audited runtime boundaries: which files they cover, how overlaps are marked, and when one passes. */
module Boundaries {
  import opened Wrappers
  import opened Text

  datatype SourceFile = SourceFile(relPath: string, suffix: string, lineCount: nat)

  datatype Entry = Entry(id: string, classification: string, runtimeLanguage: string, targetStackException: bool,
                         reclassifies: seq<string>, paths: seq<string>, requiredEvidence: seq<string>,
                         requiredChecks: seq<string>)

  datatype Work = Work(entry: Entry, coveredFiles: seq<string>, coveredLineCount: nat,
                       invalid: seq<string>, unsupported: seq<string>)

  /** Glob patterns, which live elsewhere: which are well formed, and what a set of them matches. */
  datatype Globs = Globs(wellFormed: string -> bool, builds: seq<string> -> bool,
                         matches: (seq<string>, string) -> bool)

  function InvalidBoundaryPath(path: string): Option<string> {
    if forall i | 0 <= i < |path| :: IsWhitespace(path[i]) then Some("empty path")
    else if path == "." || path == "/" || path == "*" || path == "**" || path == "**/*" then
      Some("repo-root glob is not allowed")
    else if "*" <= path || '/' !in path then Some("repo-root glob is not allowed")
    else if "/" <= path then Some("absolute paths are not allowed")
    else if ".." in Split(path, '/') then Some("parent traversal is not allowed")
    else if path == "agent" || path == ".github" || path == "docs" || path == "reference"
         || "agent/" <= path || ".github/" <= path || "docs/" <= path || "reference/" <= path then
      Some("control paths cannot be audited runtime payloads")
    else None
  }

  predicate PathUsable(path: string, globs: Globs) {
    InvalidBoundaryPath(path).None? && globs.wellFormed(path)
  }

  /** The boundary has a glob set: its capabilities and paths are all acceptable. */
  predicate Usable(entry: Entry, globs: Globs, caps: set<string>) {
    && (forall c | c in entry.reclassifies :: c in caps)
    && (forall p | p in entry.paths :: PathUsable(p, globs))
    && globs.builds(entry.paths)
  }

  predicate Covers(entry: Entry, globs: Globs, caps: set<string>, file: SourceFile) {
    Usable(entry, globs, caps) && file.suffix == ".py" && globs.matches(entry.paths, file.relPath)
  }

  function CoveredPaths(entry: Entry, globs: Globs, caps: set<string>, files: seq<SourceFile>): seq<string> {
    if files == [] then []
    else
      var n := |files| - 1;
      CoveredPaths(entry, globs, caps, files[..n])
      + if Covers(entry, globs, caps, files[n]) then [files[n].relPath] else []
  }

  function CoveredLines(entry: Entry, globs: Globs, caps: set<string>, files: seq<SourceFile>): nat {
    if files == [] then 0
    else
      var n := |files| - 1;
      CoveredLines(entry, globs, caps, files[..n])
      + if Covers(entry, globs, caps, files[n]) then files[n].lineCount else 0
  }

  function PythonLines(files: seq<SourceFile>): nat {
    if files == [] then 0
    else
      var n := |files| - 1;
      PythonLines(files[..n]) + if files[n].suffix == ".py" then files[n].lineCount else 0
  }

  method BuildWork(entry: Entry, globs: Globs, caps: set<string>, files: seq<SourceFile>) returns (work: Work)
    ensures work.entry == entry
    ensures work.coveredFiles == CoveredPaths(entry, globs, caps, files)
    ensures work.coveredLineCount == CoveredLines(entry, globs, caps, files)
    ensures work.unsupported == [] <==>
              entry.runtimeLanguage == "python" && entry.targetStackException && entry.reclassifies != []
    ensures work.invalid == [] <==>
              && (forall c | c in entry.reclassifies :: c in caps)
              && (forall p | p in entry.paths :: PathUsable(p, globs))
              && (globs.builds(entry.paths) ==> CoveredPaths(entry, globs, caps, files) != [])
  {
    var unsupported := UnsupportedReasons(entry);
    var invalid := EntryProblems(entry, globs, caps);
    var globset := invalid == [] && globs.builds(entry.paths);
    var coveredFiles: seq<string> := [];
    var coveredLineCount := 0;
    if globset {
      coveredFiles, coveredLineCount := Cover(entry, globs, caps, files);
      if coveredFiles == [] {
        invalid := invalid + ["boundary paths did not match any Python files"];
      }
    } else {
      NothingCovered(entry, globs, caps, files);
    }
    work := Work(entry, coveredFiles, coveredLineCount, invalid, unsupported);
  }

  method UnsupportedReasons(entry: Entry) returns (unsupported: seq<string>)
    ensures unsupported == [] <==>
              entry.runtimeLanguage == "python" && entry.targetStackException && entry.reclassifies != []
  {
    unsupported := [];
    if entry.runtimeLanguage != "python" || !entry.targetStackException {
      unsupported := unsupported + ["only python target_stack_exception boundaries are supported"];
    }
    if entry.reclassifies == [] {
      unsupported := unsupported + ["boundary must declare at least one Python stack cap reclassification"];
    }
  }

  method EntryProblems(entry: Entry, globs: Globs, caps: set<string>) returns (invalid: seq<string>)
    ensures invalid == [] <==> (forall c | c in entry.reclassifies :: c in caps)
                               && (forall p | p in entry.paths :: PathUsable(p, globs))
  {
    invalid := [];
    for i := 0 to |entry.reclassifies|
      invariant invalid == [] <==> forall j | 0 <= j < i :: entry.reclassifies[j] in caps
    {
      if entry.reclassifies[i] !in caps {
        invalid := invalid + ["unsupported reclassifies cap `" + entry.reclassifies[i] + "`"];
      }
    }
    ghost var capsFine := invalid == [];
    for i := 0 to |entry.paths|
      invariant invalid == [] <==> capsFine && forall j | 0 <= j < i :: PathUsable(entry.paths[j], globs)
    {
      var path := entry.paths[i];
      var problem := InvalidBoundaryPath(path);
      if problem.Some? {
        invalid := invalid + [path + ": " + problem.value];
      } else if !globs.wellFormed(path) {
        invalid := invalid + [path + ": invalid glob"];
      }
    }
  }

  method Cover(entry: Entry, globs: Globs, caps: set<string>, files: seq<SourceFile>)
    returns (coveredFiles: seq<string>, coveredLineCount: nat)
    requires Usable(entry, globs, caps)
    ensures coveredFiles == CoveredPaths(entry, globs, caps, files)
    ensures coveredLineCount == CoveredLines(entry, globs, caps, files)
  {
    coveredFiles, coveredLineCount := [], 0;
    for i := 0 to |files|
      invariant coveredFiles == CoveredPaths(entry, globs, caps, files[..i])
      invariant coveredLineCount == CoveredLines(entry, globs, caps, files[..i])
    {
      assert files[..i + 1][..i] == files[..i];
      if files[i].suffix == ".py" && globs.matches(entry.paths, files[i].relPath) {
        coveredLineCount := coveredLineCount + files[i].lineCount;
        coveredFiles := coveredFiles + [files[i].relPath];
      }
    }
    assert files[..|files|] == files;
  }

  lemma {:induction false} NothingCovered(entry: Entry, globs: Globs, caps: set<string>, files: seq<SourceFile>)
    requires !Usable(entry, globs, caps)
    ensures CoveredPaths(entry, globs, caps, files) == [] && CoveredLines(entry, globs, caps, files) == 0
  {
    if files != [] {
      NothingCovered(entry, globs, caps, files[..|files| - 1]);
    }
  }

  // ---- overlaps -----------------------------------------------------------

  function Occurrences(files: seq<string>, file: string): nat {
    if files == [] then 0
    else Occurrences(files[..|files| - 1], file) + if files[|files| - 1] == file then 1 else 0
  }

  /** How often the boundaries, all together, cover a file. */
  function TimesCovered(works: seq<Work>, file: string): nat {
    if works == [] then 0
    else TimesCovered(works[..|works| - 1], file) + Occurrences(works[|works| - 1].coveredFiles, file)
  }

  /** The boundary covers a file that is covered more than once. */
  ghost predicate Shares(works: seq<Work>, i: nat)
    requires i < |works|
  {
    exists file :: file in works[i].coveredFiles && TimesCovered(works, file) >= 2
  }

  /** Marking only adds reasons, and adds some exactly to the boundaries that share a file. */
  ghost predicate Marked(before: seq<Work>, after: seq<Work>) {
    && |after| == |before|
    && (forall i | 0 <= i < |before| :: after[i] == before[i].(invalid := after[i].invalid))
    && (forall i | 0 <= i < |before| :: before[i].invalid <= after[i].invalid)
    && (forall i | 0 <= i < |before| :: after[i].invalid == before[i].invalid <==> !Shares(before, i))
  }

  type Owners = map<string, seq<nat>>

  function OwnersOf(owners: Owners, file: string): seq<nat> {
    if file in owners then owners[file] else []
  }

  ghost predicate OwnersMatch(owners: Owners, works: seq<Work>) {
    forall file :: && |OwnersOf(owners, file)| == TimesCovered(works, file)
                   && (forall i: nat :: i in OwnersOf(owners, file) <==> i < |works| && file in works[i].coveredFiles)
  }

  method CollectOwners(works: seq<Work>) returns (owners: Owners)
    ensures OwnersMatch(owners, works)
  {
    owners := map[];
    for idx := 0 to |works|
      invariant OwnersMatch(owners, works[..idx])
    {
      owners := AddOwner(owners, works, idx);
    }
    assert works[..|works|] == works;
  }

  method AddOwner(owners0: Owners, works: seq<Work>, idx: nat) returns (owners: Owners)
    requires idx < |works| && OwnersMatch(owners0, works[..idx])
    ensures OwnersMatch(owners, works[..idx + 1])
  {
    owners := owners0;
    var files := works[idx].coveredFiles;
    for k := 0 to |files|
      invariant forall file ::
                  OwnersOf(owners, file) == OwnersOf(owners0, file) + Copies(idx, Occurrences(files[..k], file))
    {
      var file := files[k];
      ghost var before := owners;
      owners := owners[file := OwnersOf(owners, file) + [idx]];
      forall f ensures OwnersOf(owners, f) == OwnersOf(owners0, f) + Copies(idx, Occurrences(files[..k + 1], f)) {
        OccurrencesOneMore(files, k, f);
        CopiesGrow(OwnersOf(owners0, f), idx, Occurrences(files[..k], f));
        assert OwnersOf(before, f) == OwnersOf(owners0, f) + Copies(idx, Occurrences(files[..k], f));
      }
    }
    assert files[..|files|] == files;
    AddedOwnersMatch(owners0, owners, works, idx);
  }

  lemma AddedOwnersMatch(owners0: Owners, owners: Owners, works: seq<Work>, idx: nat)
    requires idx < |works| && OwnersMatch(owners0, works[..idx])
    requires forall file :: OwnersOf(owners, file)
                            == OwnersOf(owners0, file) + Copies(idx, Occurrences(works[idx].coveredFiles, file))
    ensures OwnersMatch(owners, works[..idx + 1])
  {
    var longer := works[..idx + 1];
    assert longer[..idx] == works[..idx] && longer[idx] == works[idx];
    forall f ensures |OwnersOf(owners, f)| == TimesCovered(longer, f)
                     && (forall i: nat :: i in OwnersOf(owners, f) <==> i < idx + 1 && f in longer[i].coveredFiles)
    {
      var n := Occurrences(works[idx].coveredFiles, f);
      OccurrencesPositive(works[idx].coveredFiles, f);
      CopiesElements(idx, n);
      assert |OwnersOf(owners0, f)| == TimesCovered(works[..idx], f);
    }
  }

  lemma CopiesElements(idx: nat, n: nat)
    ensures forall i: nat :: i in Copies(idx, n) <==> n > 0 && i == idx
  {
    assert n > 0 ==> Copies(idx, n)[0] == idx;
  }

  function Copies(idx: nat, n: nat): (s: seq<nat>)
    ensures |s| == n && forall i | 0 <= i < n :: s[i] == idx
  {
    seq(n, _ => idx)
  }

  lemma CopiesGrow(s: seq<nat>, idx: nat, n: nat)
    ensures s + Copies(idx, n) + [idx] == s + Copies(idx, n + 1)
    ensures s + Copies(idx, n) + [] == s + Copies(idx, n)
  {
  }

  lemma OccurrencesOneMore(files: seq<string>, k: nat, file: string)
    requires k < |files|
    ensures Occurrences(files[..k + 1], file) == Occurrences(files[..k], file) + if files[k] == file then 1 else 0
  {
    assert files[..k + 1][..k] == files[..k];
  }

  lemma {:induction false} OccurrencesPositive(files: seq<string>, file: string)
    ensures Occurrences(files, file) > 0 <==> file in files
  {
    if files != [] {
      var n := |files| - 1;
      OccurrencesPositive(files[..n], file);
      assert files == files[..n] + [files[n]];
    }
  }

  method MarkOverlaps(works: array<Work>)
    modifies works
    ensures Marked(old(works[..]), works[..])
  {
    ghost var before := works[..];
    var owners := CollectOwners(works[..]);
    var files := owners.Keys;
    ghost var done: set<string> := {};
    while files != {}
      invariant done + files == owners.Keys && done !! files
      invariant Progress(before, works[..], owners, done)
      decreases files
    {
      var file :| file in files;
      files := files - {file};
      if |owners[file]| >= 2 {
        MarkFile(works, file, owners[file], before, owners, done);
      }
      done := done + {file};
    }
    ProgressIsMarked(before, works[..], owners, done);
  }

  /** The marking that has been done once the files in `done` have been looked at. */
  ghost predicate Progress(before: seq<Work>, after: seq<Work>, owners: Owners, done: set<string>) {
    && |after| == |before|
    && (forall i | 0 <= i < |before| :: after[i] == before[i].(invalid := after[i].invalid))
    && (forall i | 0 <= i < |before| :: before[i].invalid <= after[i].invalid)
    && (forall i: nat | i < |before| :: after[i].invalid == before[i].invalid <==> !SharesOneOf(owners, done, i))
  }

  ghost predicate SharesOneOf(owners: Owners, done: set<string>, i: nat) {
    exists file :: file in done && i in OwnersOf(owners, file) && |OwnersOf(owners, file)| >= 2
  }

  lemma ProgressIsMarked(before: seq<Work>, after: seq<Work>, owners: Owners, done: set<string>)
    requires OwnersMatch(owners, before) && done == owners.Keys && Progress(before, after, owners, done)
    ensures Marked(before, after)
  {
  }

  method MarkFile(works: array<Work>, file: string, indices: seq<nat>, ghost before: seq<Work>, ghost owners: Owners,
                  ghost done: set<string>)
    requires Progress(before, works[..], owners, done) && OwnersMatch(owners, before)
    requires indices == OwnersOf(owners, file) && |indices| >= 2
    modifies works
    ensures Progress(before, works[..], owners, done + {file})
  {
    var note := "overlapping audited boundaries for `" + file + "`: " + Ids(works[..], indices);
    ghost var start := works[..];
    forall k | 0 <= k < |indices| ensures indices[k] < |start| {
      assert indices[k] in OwnersOf(owners, file);
    }
    for k := 0 to |indices|
      invariant works[..] == Noted(start, indices[..k], note)
    {
      var idx := indices[k];
      assert indices[..k + 1][..k] == indices[..k];
      works[idx] := works[idx].(invalid := works[idx].invalid + [note]);
    }
    assert indices[..|indices|] == indices;
    NotedGrows(start, indices, note);
    FileMarked(before, start, works[..], owners, done, file);
  }

  /** The note added to each listed boundary in turn. */
  ghost function Noted(works: seq<Work>, indices: seq<nat>, note: string): (r: seq<Work>)
    requires forall k | 0 <= k < |indices| :: indices[k] < |works|
    ensures |r| == |works|
  {
    if indices == [] then works
    else
      var n := |indices| - 1;
      var idx := indices[n];
      var before := Noted(works, indices[..n], note);
      before[idx := before[idx].(invalid := before[idx].invalid + [note])]
  }

  lemma {:induction false} NotedGrows(works: seq<Work>, indices: seq<nat>, note: string)
    requires forall k | 0 <= k < |indices| :: indices[k] < |works|
    ensures var r := Noted(works, indices, note);
            && (forall i | 0 <= i < |works| :: r[i] == works[i].(invalid := r[i].invalid))
            && (forall i | 0 <= i < |works| :: works[i].invalid <= r[i].invalid)
            && (forall i: nat | i < |works| :: r[i].invalid == works[i].invalid <==> i !in indices)
  {
    if indices != [] {
      var n := |indices| - 1;
      NotedGrows(works, indices[..n], note);
      assert indices == indices[..n] + [indices[n]];
    }
  }

  lemma FileMarked(before: seq<Work>, start: seq<Work>, after: seq<Work>, owners: Owners, done: set<string>,
                   file: string)
    requires Progress(before, start, owners, done) && |OwnersOf(owners, file)| >= 2
    requires |after| == |start|
    requires forall i | 0 <= i < |start| :: after[i] == start[i].(invalid := after[i].invalid)
    requires forall i | 0 <= i < |start| :: start[i].invalid <= after[i].invalid
    requires forall i: nat | i < |start| :: after[i].invalid == start[i].invalid <==> i !in OwnersOf(owners, file)
    ensures Progress(before, after, owners, done + {file})
  {
  }

  function Ids(works: seq<Work>, indices: seq<nat>): string {
    Join(seq(|indices|, k requires 0 <= k < |indices| =>
           if indices[k] < |works| then works[indices[k]].entry.id else ""), ", ")
  }

  // ---- what marking guarantees --------------------------------------------

  lemma {:induction false} CoveredAddsUp(works: seq<Work>, i: nat, file: string)
    requires i < |works|
    ensures Occurrences(works[i].coveredFiles, file) <= TimesCovered(works, file)
  {
    var n := |works| - 1;
    if i < n {
      CoveredAddsUp(works[..n], i, file);
    }
  }

  lemma {:induction false} CoveredTwiceAddsUp(works: seq<Work>, i: nat, j: nat, file: string)
    requires i < j < |works|
    ensures Occurrences(works[i].coveredFiles, file) + Occurrences(works[j].coveredFiles, file)
         <= TimesCovered(works, file)
  {
    var n := |works| - 1;
    if j < n {
      CoveredTwiceAddsUp(works[..n], i, j, file);
    } else {
      CoveredAddsUp(works[..n], i, file);
    }
  }

  /** The boundary can still pass or fail on its evidence. */
  predicate Valid(work: Work) {
    work.invalid == [] && work.unsupported == []
  }

  /** After marking, two valid boundaries share no file, and none covers a file twice. */
  lemma ValidBoundariesAreDisjoint(before: seq<Work>, after: seq<Work>, i: nat, j: nat)
    requires Marked(before, after) && i < |after| && j < |after| && Valid(after[i]) && Valid(after[j])
    ensures i != j ==> forall file :: file in after[i].coveredFiles ==> file !in after[j].coveredFiles
    ensures forall file :: Occurrences(after[i].coveredFiles, file) <= 1
  {
    forall k | k == i || k == j, file ensures file in before[k].coveredFiles ==> TimesCovered(before, file) < 2 {
      assert before[k].invalid <= after[k].invalid;
      assert !Shares(before, k);
    }
    forall file ensures Occurrences(after[i].coveredFiles, file) <= 1 {
      OccurrencesPositive(before[i].coveredFiles, file);
      CoveredAddsUp(before, i, file);
    }
    if i != j {
      forall file | file in after[i].coveredFiles ensures file !in after[j].coveredFiles {
        OccurrencesPositive(before[i].coveredFiles, file);
        OccurrencesPositive(before[j].coveredFiles, file);
        CoveredTwiceAddsUp(before, if i < j then i else j, if i < j then j else i, file);
      }
    }
  }

  /** Lines counted by the valid boundaries. */
  function ValidLines(works: seq<Work>): nat {
    if works == [] then 0
    else ValidLines(works[..|works| - 1])
         + if Valid(works[|works| - 1]) then works[|works| - 1].coveredLineCount else 0
  }

  /** The boundaries were built from these files. */
  ghost predicate Built(works: seq<Work>, globs: Globs, caps: set<string>, files: seq<SourceFile>) {
    forall i | 0 <= i < |works| ::
      && works[i].coveredFiles == CoveredPaths(works[i].entry, globs, caps, files)
      && works[i].coveredLineCount == CoveredLines(works[i].entry, globs, caps, files)
  }

  /** Lines of `files` counted by the valid boundaries, file by file. */
  function LinesByFile(works: seq<Work>, globs: Globs, caps: set<string>, files: seq<SourceFile>): nat {
    if works == [] then 0
    else
      var w := works[|works| - 1];
      LinesByFile(works[..|works| - 1], globs, caps, files)
      + if Valid(w) then CoveredLines(w.entry, globs, caps, files) else 0
  }

  function ValidCovering(works: seq<Work>, globs: Globs, caps: set<string>, file: SourceFile): nat {
    if works == [] then 0
    else
      var w := works[|works| - 1];
      ValidCovering(works[..|works| - 1], globs, caps, file)
      + if Valid(w) && Covers(w.entry, globs, caps, file) then 1 else 0
  }

  lemma OneMoreTimes(k: nat, lines: nat)
    ensures (k + 1) * lines == k * lines + lines
  {
  }

  lemma {:induction false} LinesOfOneMoreFile(works: seq<Work>, globs: Globs, caps: set<string>, files: seq<SourceFile>)
    requires files != []
    ensures var n := |files| - 1;
            LinesByFile(works, globs, caps, files)
            == LinesByFile(works, globs, caps, files[..n])
               + ValidCovering(works, globs, caps, files[n]) * files[n].lineCount
  {
    if works != [] {
      var fewer := works[..|works| - 1];
      LinesOfOneMoreFile(fewer, globs, caps, files);
      OneMoreTimes(ValidCovering(fewer, globs, caps, files[|files| - 1]), files[|files| - 1].lineCount);
    }
  }

  lemma {:induction false} CoveringIsSmall(works: seq<Work>, globs: Globs, caps: set<string>, file: SourceFile)
    requires forall i, j | 0 <= i < j < |works| && Valid(works[i]) && Valid(works[j]) ::
               !(Covers(works[i].entry, globs, caps, file) && Covers(works[j].entry, globs, caps, file))
    ensures ValidCovering(works, globs, caps, file) <= 1
    ensures ValidCovering(works, globs, caps, file) == 1 ==>
              exists i :: 0 <= i < |works| && Valid(works[i]) && Covers(works[i].entry, globs, caps, file)
    ensures file.suffix != ".py" ==> ValidCovering(works, globs, caps, file) == 0
  {
    if works != [] {
      var n := |works| - 1;
      CoveringIsSmall(works[..n], globs, caps, file);
      if ValidCovering(works[..n], globs, caps, file) == 1 {
        var i :| 0 <= i < n && Valid(works[..n][i]) && Covers(works[..n][i].entry, globs, caps, file);
        assert Valid(works[i]) && Covers(works[i].entry, globs, caps, file);
      }
    }
  }

  ghost predicate CoverApart(works: seq<Work>, globs: Globs, caps: set<string>, files: seq<SourceFile>) {
    forall k, i, j | 0 <= k < |files| && 0 <= i < j < |works| && Valid(works[i]) && Valid(works[j]) ::
      !(Covers(works[i].entry, globs, caps, files[k]) && Covers(works[j].entry, globs, caps, files[k]))
  }

  lemma {:induction false} LinesWithinTotal(works: seq<Work>, globs: Globs, caps: set<string>, files: seq<SourceFile>)
    requires CoverApart(works, globs, caps, files)
    ensures LinesByFile(works, globs, caps, files) <= PythonLines(files)
  {
    if files == [] {
      NoLines(works, globs, caps);
    } else {
      var n := |files| - 1;
      assert forall k | 0 <= k < n :: files[..n][k] == files[k];
      LinesWithinTotal(works, globs, caps, files[..n]);
      LinesOfOneMoreFile(works, globs, caps, files);
      CoveringIsSmall(works, globs, caps, files[n]);
    }
  }

  lemma {:induction false} NoLines(works: seq<Work>, globs: Globs, caps: set<string>)
    ensures LinesByFile(works, globs, caps, []) == 0
  {
    if works != [] {
      NoLines(works[..|works| - 1], globs, caps);
    }
  }

  lemma {:induction false} LinesAsCounted(works: seq<Work>, globs: Globs, caps: set<string>, files: seq<SourceFile>)
    requires Built(works, globs, caps, files)
    ensures ValidLines(works) == LinesByFile(works, globs, caps, files)
  {
    if works != [] {
      LinesAsCounted(works[..|works| - 1], globs, caps, files);
    }
  }

  lemma {:induction false} CoveredIsListed(entry: Entry, globs: Globs, caps: set<string>, files: seq<SourceFile>,
                                           k: nat)
    requires k < |files| && Covers(entry, globs, caps, files[k])
    ensures files[k].relPath in CoveredPaths(entry, globs, caps, files)
  {
    var n := |files| - 1;
    if k < n {
      CoveredIsListed(entry, globs, caps, files[..n], k);
    }
  }

  /** Marked boundaries never count a line twice: the valid ones count at most the Python lines there are. */
  lemma ValidBoundariesNeverDoubleCount(before: seq<Work>, after: seq<Work>, globs: Globs, caps: set<string>,
                                        files: seq<SourceFile>)
    requires Built(before, globs, caps, files) && Marked(before, after)
    ensures ValidLines(after) <= PythonLines(files)
  {
    assert Built(after, globs, caps, files);
    forall k, i, j | 0 <= k < |files| && 0 <= i < j < |after| && Valid(after[i]) && Valid(after[j])
      ensures !(Covers(after[i].entry, globs, caps, files[k]) && Covers(after[j].entry, globs, caps, files[k]))
    {
      ValidBoundariesAreDisjoint(before, after, i, j);
      if Covers(after[i].entry, globs, caps, files[k]) && Covers(after[j].entry, globs, caps, files[k]) {
        CoveredIsListed(after[i].entry, globs, caps, files, k);
        CoveredIsListed(after[j].entry, globs, caps, files, k);
      }
    }
    LinesWithinTotal(after, globs, caps, files);
    LinesAsCounted(after, globs, caps, files);
  }
}
