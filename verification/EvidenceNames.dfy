/** What the files of a run are called and where they lie, in terms of characters and path components. */
module EvidenceNames {
  import opened EvidencePaths
  import opened Lexical
  import opened ProofEvidence
  import opened Text

  /** A slug is as long as its lane; letters, digits and dashes stay, everything else becomes a dash. */
  lemma {:induction false} SlugIs(value: string)
    ensures |Slugify(value)| == |value|
    ensures forall i | 0 <= i < |value| ::
              var c := value[i];
              Slugify(value)[i] == if 'a' <= c <= 'z' || 'A' <= c <= 'Z' || '0' <= c <= '9' then c else '-'
  {
    if value != "" {
      SlugIs(value[1..]);
    }
  }

  /** Half a byte is written as one digit of base 16. */
  lemma HexDigitIs(d: Nibble)
    ensures HexDigit(d) as int == (if d < 10 then '0' as int + d else 'a' as int + d - 10)
  {
    assert HexDigit(d) == "0123456789abcdef"[d];
  }

  lemma {:induction false} HexIs(nibbles: seq<Nibble>)
    ensures |Hex(nibbles)| == |nibbles|
    ensures forall i | 0 <= i < |nibbles| ::
              var d := nibbles[i];
              Hex(nibbles)[i] as int == (if d < 10 then '0' as int + d else 'a' as int + d - 10)
  {
    if nibbles != [] {
      HexIs(nibbles[1..]);
      HexDigitIs(nibbles[0]);
    }
  }

  /** A command's short hash: the first twelve digits of its hash. */
  lemma ShortHashIs(w: World, command: string)
    ensures var hash, short := w.hash(command), ShortHash(w, command);
            && |short| == (if |hash| < 12 then |hash| else 12)
            && forall i | 0 <= i < |short| ::
                 short[i] as int == (if hash[i] < 10 then '0' as int + hash[i] else 'a' as int + hash[i] - 10)
  {
    var hash := w.hash(command);
    HexIs(if |hash| > 12 then hash[..12] else hash);
  }

  /** A file is named by its run's number from 1 with at least two digits, a dash, a slug, a dash, a hash. */
  lemma FileNameIs(i: nat, lane: string, hash: string, ext: string) returns (number: string)
    ensures FileName(i, lane, hash, ext) == number + "-" + (Slugify(lane) + "-" + hash + ext)
    ensures ValueOf(number) == i + 1 && |number| >= 2 && (|number| > 2 ==> number[0] != '0')
    ensures forall k | 0 <= k < |number| :: '0' <= number[k] <= '9'
  {
    number := Pad2(i + 1);
    DecimalStandsFor(i + 1);
    if i + 1 < 10 {
      LeadingZero(Decimal(i + 1));
    } else {
      DecimalStart(i + 1);
    }
  }

  lemma LeadingZero(digit: string)
    requires |digit| == 1
    ensures ValueOf("0" + digit) == ValueOf(digit)
  {
    var s := "0" + digit;
    assert s[..1] == "0" && s[1] == digit[0];
    assert "0"[..0] == "" && digit[..0] == "";
  }

  /** Where a run's files lie: its receipt in the given directory, its log in the repository's log directory. */
  lemma FilesLie(w: World, outDir: string, i: nat, run: PlannedRun)
    ensures var f := FilesFor(w, Parse(outDir), i, run);
            var hash := ShortHash(w, run.command);
            && f.receiptLoc == PlaceOf(w, outDir) + [Name(FileName(i, run.lane, hash, ".json"))]
            && f.logLoc == PlaceOf(w, w.repo)
                           + [Name("target"), Name("jankurai"), Name("logs"), Name(FileName(i, run.lane, hash, ".log"))]
  {
    LogsLie(w.cwd, RepoPath(w), LogDir(w), FileName(i, run.lane, ShortHash(w, run.command), LOG));
    ChildLies(w.cwd, Parse(outDir), FileName(i, run.lane, ShortHash(w, run.command), JSON));
  }

  lemma LogsLie(cwd: Loc, repo: PathBuf, dir: PathBuf, name: string)
    requires dir == JoinPath(repo, LOG_DIR)
    ensures Locate(cwd, Child(dir, name))
         == Locate(cwd, repo) + [Name("target"), Name("jankurai"), Name("logs"), Name(name)]
  {
    ChildLies(cwd, dir, name);
    assert Locate(cwd, dir) == Locate(cwd, repo) + LOG_DIR.parts;
  }

  lemma ChildLies(cwd: Loc, dir: PathBuf, name: string)
    ensures Locate(cwd, Child(dir, name)) == Locate(cwd, dir) + [Name(name)]
  {
  }

  /** A path starts at the root exactly if its text starts with a slash. */
  lemma RootIs(s: string)
    ensures Parse(s).root == Absolute <==> s != "" && s[0] == '/'
    ensures Parse(s).root == Dot <==> s == "." || (|s| >= 2 && s[0] == '.' && s[1] == '/')
  {
    var end := FirstPiece(s, '/');
    if "/" <= s {
      assert s[..1] == "/";
    }
    if s != "" && s[0] == '/' {
      assert s[..1] == "/";
    }
    if s[..end] == "." {
      assert s[0] == s[..end][0];
      assert end == |s| ==> s == ".";
    }
    if s == "." || (|s| >= 2 && s[0] == '.' && s[1] == '/') {
      assert end == 1;
      assert s[..1] == ".";
    }
  }

  /**
   * A path from the root is where it says; any other one starts from the working directory for the producer and from
   * the repository for the verifier.
   */
  lemma PlaceIs(cwd: Loc, repo: PathBuf, s: string)
    ensures s != "" && s[0] == '/' ==> Locate(cwd, Parse(s)) == Denotes(cwd, repo, s) == Components(s)
    ensures s == "" || s[0] != '/' ==>
              Locate(cwd, Parse(s)) == cwd + Components(s) && Denotes(cwd, repo, s) == Locate(cwd, repo) + Components(s)
  {
    RootIs(s);
    var parts := Components(s);
    assert cwd + (repo.parts + parts) == cwd + repo.parts + parts;
    assert cwd + [] == cwd;
  }
}
