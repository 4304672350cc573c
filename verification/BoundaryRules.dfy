/** Which boundary paths are acceptable, what boundaries cover, and what evidence says, on characters and positions. */
module BoundaryRules {
  import opened Wrappers
  import opened Text
  import opened Sorting
  import opened Boundaries
  import opened BoundaryEvidence

  // ----- boundary paths -----

  ghost predicate IsOrIsBelow(path: string, dir: string) {
    path == dir || (|dir| < |path| && path[..|dir|] == dir && path[|dir|] == '/')
  }

  /** A path of directories that neither starts anywhere nor leaves or enters what must not be audited. */
  ghost predicate Acceptable(path: string) {
    && (exists i :: 0 <= i < |path| && !IsWhitespace(path[i]))
    && '/' in path && path[0] != '*' && path[0] != '/'
    && !HasPiece(path, '/', "..")
    && !IsOrIsBelow(path, "agent") && !IsOrIsBelow(path, ".github")
    && !IsOrIsBelow(path, "docs") && !IsOrIsBelow(path, "reference")
  }

  lemma StartIff(path: string, c: char)
    ensures [c] <= path <==> path != "" && path[0] == c
  {
    if path != "" {
      assert path[..1] == [path[0]];
    }
  }

  /** A boundary path has no complaint exactly if it is acceptable. */
  lemma PathAcceptedIff(path: string)
    ensures InvalidBoundaryPath(path).None? <==> Acceptable(path)
  {
    SplitPieces(path, '/', "..");
    StartIff(path, '*');
    StartIff(path, '/');
    BelowIff(path, "agent");
    BelowIff(path, ".github");
    BelowIff(path, "docs");
    BelowIff(path, "reference");
    ControlPaths();
  }

  ghost predicate Blank(path: string) {
    forall i | 0 <= i < |path| :: IsWhitespace(path[i])
  }

  ghost predicate AtRoot(path: string) {
    '/' !in path || path == "/" || (path != "" && path[0] == '*')
  }

  /** The complaint is about the first of these that applies, and otherwise about a control path. */
  lemma PathProblemIs(path: string)
    ensures var problem := InvalidBoundaryPath(path);
            && (problem == Some("empty path") <==> Blank(path))
            && (problem == Some("repo-root glob is not allowed") <==> !Blank(path) && AtRoot(path))
            && (problem == Some("absolute paths are not allowed") <==>
                  !Blank(path) && !AtRoot(path) && path[0] == '/')
            && (problem == Some("parent traversal is not allowed") <==>
                  !Blank(path) && !AtRoot(path) && path[0] != '/' && HasPiece(path, '/', ".."))
            && (problem == Some("control paths cannot be audited runtime payloads") <==>
                  && !Blank(path) && !AtRoot(path) && path[0] != '/' && !HasPiece(path, '/', "..")
                  && !Acceptable(path))
  {
    PathAcceptedIff(path);
    SplitPieces(path, '/', "..");
    StartIff(path, '*');
    StartIff(path, '/');
    ProblemsDiffer();
  }

  lemma ProblemsDiffer()
    ensures |"empty path"| == 10 && |"repo-root glob is not allowed"| == 29 && |"absolute paths are not allowed"| == 30
    ensures |"parent traversal is not allowed"| == 31
    ensures |"control paths cannot be audited runtime payloads"| == 48
  {
  }

  lemma ControlPaths()
    ensures "agent" + "/" == "agent/" && ".github" + "/" == ".github/"
    ensures "docs" + "/" == "docs/" && "reference" + "/" == "reference/"
  {
  }

  // ----- coverage -----

  /** A boundary's paths, capabilities and globs are acceptable and match the Python file. */
  ghost predicate IsCovered(entry: Entry, globs: Globs, caps: set<string>, file: SourceFile) {
    && (forall i | 0 <= i < |entry.reclassifies| :: entry.reclassifies[i] in caps)
    && (forall i | 0 <= i < |entry.paths| :: Acceptable(entry.paths[i]) && globs.wellFormed(entry.paths[i]))
    && globs.builds(entry.paths) && globs.matches(entry.paths, file.relPath) && file.suffix == ".py"
  }

  lemma CoveredIff(entry: Entry, globs: Globs, caps: set<string>, file: SourceFile)
    ensures Covers(entry, globs, caps, file) <==> IsCovered(entry, globs, caps, file)
  {
    forall i | 0 <= i < |entry.paths|
      ensures PathUsable(entry.paths[i], globs) <==> Acceptable(entry.paths[i]) && globs.wellFormed(entry.paths[i])
    {
      PathAcceptedIff(entry.paths[i]);
    }
    if Covers(entry, globs, caps, file) {
      forall i | 0 <= i < |entry.paths| ensures PathUsable(entry.paths[i], globs) {
        assert entry.paths[i] in entry.paths;
      }
      forall i | 0 <= i < |entry.reclassifies| ensures entry.reclassifies[i] in caps {
        assert entry.reclassifies[i] in entry.reclassifies;
      }
    }
    if IsCovered(entry, globs, caps, file) {
      forall p | p in entry.paths ensures PathUsable(p, globs) {
        var i :| 0 <= i < |entry.paths| && entry.paths[i] == p;
        assert PathUsable(entry.paths[i], globs);
      }
    }
  }

  ghost function CoveredAt(entry: Entry, globs: Globs, caps: set<string>, files: seq<SourceFile>,
                           i: nat): Option<string> {
    if i < |files| && IsCovered(entry, globs, caps, files[i]) then Some(files[i].relPath) else None
  }

  /** A boundary covers the files it matches, in their order. */
  lemma CoveredFilesAre(entry: Entry, globs: Globs, caps: set<string>, files: seq<SourceFile>)
    ensures Picks(CoveredPaths(entry, globs, caps, files), |files|,
                  (i: nat) => CoveredAt(entry, globs, caps, files, i))
  {
    var pick: nat -> Option<string> := (i: nat) => CoveredAt(entry, globs, caps, files, i);
    CoveredOfPrefix(entry, globs, caps, files, |files|, pick);
    assert files[..|files|] == files;
  }

  lemma {:induction false} CoveredOfPrefix(entry: Entry, globs: Globs, caps: set<string>, files: seq<SourceFile>,
                                           n: nat, pick: nat -> Option<string>)
    requires n <= |files| && forall i: nat :: pick(i) == CoveredAt(entry, globs, caps, files, i)
    ensures Picks(CoveredPaths(entry, globs, caps, files[..n]), n, pick)
  {
    if n == 0 {
      PicksNothing(pick);
    } else {
      var m := n - 1;
      CoveredOfPrefix(entry, globs, caps, files, m, pick);
      CoveredIff(entry, globs, caps, files[m]);
      assert files[..n][..m] == files[..m];
      PicksOneMore(CoveredPaths(entry, globs, caps, files[..m]), m, pick, CoveredPaths(entry, globs, caps, files[..n]));
    }
  }

  // ----- counting lines -----

  /** The cells of rows of these widths: one for each line of each file. */
  ghost function Cells(widths: seq<nat>): set<(int, int)> {
    set i, l | 0 <= i < |widths| && 0 <= l < widths[i] :: (i, l)
  }

  ghost function Row(i: int, width: nat): set<(int, int)> {
    set l | 0 <= l < width :: (i, l)
  }

  lemma {:induction false} RowCount(i: int, width: nat)
    ensures |Row(i, width)| == width
  {
    if width == 0 {
      assert Row(i, 0) == {};
    } else {
      RowCount(i, width - 1);
      assert Row(i, width) == Row(i, width - 1) + {(i, width - 1)};
    }
  }

  lemma CellsOneMore(before: seq<nat>, width: nat, widths: seq<nat>)
    requires widths == before + [width]
    ensures |Cells(widths)| == |Cells(before)| + width
  {
    var n := |before|;
    RowCount(n, width);
    forall i, l ensures (i, l) in Cells(widths) <==> (i, l) in Cells(before) || (i, l) in Row(n, width) {
      assert 0 <= i < n ==> widths[i] == before[i];
    }
    assert Cells(widths) == Cells(before) + Row(n, width);
    assert Cells(before) !! Row(n, width);
  }

  lemma NoCells()
    ensures |Cells([])| == 0
  {
    assert Cells([]) == {};
  }

  ghost function PythonWidths(files: seq<SourceFile>): seq<nat> {
    seq(|files|, i requires 0 <= i < |files| => if files[i].suffix == ".py" then files[i].lineCount else 0)
  }

  /** The Python lines are the lines of the Python files, each counted once. */
  lemma {:induction false} PythonLinesAre(files: seq<SourceFile>)
    ensures PythonLines(files) == |Cells(PythonWidths(files))|
  {
    if files == [] {
      NoCells();
      assert PythonWidths(files) == [];
    } else {
      var n := |files| - 1;
      PythonLinesAre(files[..n]);
      CellsOneMore(PythonWidths(files[..n]), PythonWidths(files)[n], PythonWidths(files));
    }
  }

  ghost function CoveredWidths(entry: Entry, globs: Globs, caps: set<string>, files: seq<SourceFile>): seq<nat> {
    seq(|files|, i requires 0 <= i < |files| =>
      if IsCovered(entry, globs, caps, files[i]) then files[i].lineCount else 0)
  }

  /** A boundary's line count counts each line of each covered file once. */
  lemma {:induction false} CoveredLinesAre(entry: Entry, globs: Globs, caps: set<string>, files: seq<SourceFile>)
    ensures CoveredLines(entry, globs, caps, files) == |Cells(CoveredWidths(entry, globs, caps, files))|
  {
    var widths := CoveredWidths(entry, globs, caps, files);
    if files == [] {
      NoCells();
      assert widths == [];
    } else {
      var n := |files| - 1;
      CoveredLinesAre(entry, globs, caps, files[..n]);
      CoveredIff(entry, globs, caps, files[n]);
      CellsOneMore(CoveredWidths(entry, globs, caps, files[..n]), widths[n], widths);
    }
  }

  ghost function CountedWidths(works: seq<Work>, statuses: seq<Status>): seq<nat>
    requires |statuses| == |works|
  {
    seq(|works|, i requires 0 <= i < |works| =>
      if statuses[i] == Passed || statuses[i] == Failed || statuses[i] == MissingEvidence
      then works[i].coveredLineCount else 0)
  }

  /** The lines that count are those of the boundaries whose evidence passed, failed or is missing. */
  lemma {:induction false} CountedLinesAre(works: seq<Work>, statuses: seq<Status>)
    requires |statuses| == |works|
    ensures CountedLines(works, statuses) == |Cells(CountedWidths(works, statuses))|
  {
    var widths := CountedWidths(works, statuses);
    if works == [] {
      NoCells();
      assert widths == [];
    } else {
      var n := |works| - 1;
      CountedLinesAre(works[..n], statuses[..n]);
      CellsOneMore(CountedWidths(works[..n], statuses[..n]), widths[n], widths);
    }
  }

  // ----- evidence -----

  /** The last entry for a path counts. */
  lemma {:induction false} RecordedIsLast(files: seq<EvidenceFile>, path: string)
    ensures match RecordedSha(files, path)
            case None => forall i | 0 <= i < |files| :: files[i].path != path
            case Some(sha) =>
              exists i :: && 0 <= i < |files| && files[i] == EvidenceFile(path, sha)
                          && forall j | i < j < |files| :: files[j].path != path
  {
    if files != [] {
      var n := |files| - 1;
      RecordedIsLast(files[..n], path);
      if files[n].path == path {
        assert files[n] == EvidenceFile(path, files[n].sha256);
      } else if RecordedSha(files[..n], path).Some? {
        var sha := RecordedSha(files[..n], path).value;
        var i :| && 0 <= i < n && files[..n][i] == EvidenceFile(path, sha)
                 && forall j | i < j < n :: files[..n][j].path != path;
        assert files[i] == EvidenceFile(path, sha);
        forall j | i < j < |files| ensures files[j].path != path {
          assert j < n ==> files[j] == files[..n][j];
        }
      } else {
        forall i | 0 <= i < |files| ensures files[i].path != path {
          assert i < n ==> files[i] == files[..n][i];
        }
      }
    }
  }

  /** The first check of a name counts. */
  lemma {:induction false} CheckIsFirst(checks: seq<Check>, id: string)
    ensures match FirstCheck(checks, id)
            case None => forall i | 0 <= i < |checks| :: checks[i].id != id
            case Some(check) =>
              exists i :: && 0 <= i < |checks| && checks[i] == check && check.id == id
                          && forall j | 0 <= j < i :: checks[j].id != id
  {
    if checks != [] && checks[0].id != id {
      var rest := checks[1..];
      CheckIsFirst(rest, id);
      if FirstCheck(rest, id).Some? {
        var i :| && 0 <= i < |rest| && rest[i] == FirstCheck(rest, id).value
                 && forall j | 0 <= j < i :: rest[j].id != id;
        assert checks[i + 1] == rest[i];
        forall j | 0 <= j < i + 1 ensures checks[j].id != id {
          assert j > 0 ==> checks[j] == rest[j - 1];
        }
      } else {
        forall i | 0 <= i < |checks| ensures checks[i].id != id {
          assert i > 0 ==> checks[i] == rest[i - 1];
        }
      }
    }
  }

  /** A recorded hash is current if it is the file's own, with or without the algorithm's name in front. */
  lemma CurrentShaIff(recorded: string, file: string, actual: string -> Option<string>)
    ensures HasCurrentSha(recorded, file, actual)
       <==> || (actual(file) == Some(recorded) && |recorded| >= 7 && recorded[..7] == "sha256:")
            || (actual(file) == Some("sha256:" + recorded) && !(|recorded| >= 7 && recorded[..7] == "sha256:"))
  {
    if "sha256:" <= recorded {
      assert recorded[..7] == "sha256:";
    }
  }

  /** A required check passed if its first report says so, in either of two words. */
  lemma CheckPassedIff(evidence: Evidence, id: string)
    ensures CheckPassed(evidence, id)
       <==> exists i :: && 0 <= i < |evidence.checks| && evidence.checks[i].id == id
                        && (evidence.checks[i].status == "passed" || evidence.checks[i].status == "pass")
                        && forall j | 0 <= j < i :: evidence.checks[j].id != id
  {
    CheckIsFirst(evidence.checks, id);
    if FirstCheck(evidence.checks, id).Some? {
      var i :| && 0 <= i < |evidence.checks| && evidence.checks[i] == FirstCheck(evidence.checks, id).value
               && forall j | 0 <= j < i :: evidence.checks[j].id != id;
      forall k | && 0 <= k < |evidence.checks| && evidence.checks[k].id == id
                 && forall j | 0 <= j < k :: evidence.checks[j].id != id
        ensures k == i
      {
      }
    }
  }
}
