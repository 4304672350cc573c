/** The paths proof evidence is written under, how an index spells them, and what the spelling denotes. */
module EvidencePaths {
  import opened Lexical
  import opened Text

  /** How a path starts: at the file system's root, with an explicit `.`, or with neither. */
  datatype Root = Absolute | Dot | Plain

  datatype PathBuf = PathBuf(root: Root, parts: seq<Part>) {
    ghost predicate Valid() {
      AllValid(parts)
    }
  }

  /** A file's place: the components from the root of the file system. */
  type Loc = seq<Part>

  function Parse(s: string): (p: PathBuf)
    ensures p.Valid()
  {
    var root := if "/" <= s then Absolute else if Split(s, '/')[0] == "." then Dot else Plain;
    PathBuf(root, Components(s))
  }

  function Show(p: PathBuf): string {
    match p.root
    case Absolute => "/" + Print(p.parts)
    case Dot => if p.parts == [] then "." else "./" + Print(p.parts)
    case Plain => Print(p.parts)
  }

  lemma PrintStart(parts: seq<Part>)
    requires AllValid(parts) && parts != []
    ensures Split(Print(parts), '/') == Shown(parts)
    ensures Print(parts) != "" && Print(parts)[0] != '/' && Shown(parts)[0] != "."
  {
    ShownReadsBack(parts);
    SplitJoin(Shown(parts), '/');
    var first := parts[0].Show();
    assert first != "" && first[0] != '/' && first != ".";
    assert first <= Print(parts);
  }

  /** What is shown reads back as the same path. */
  lemma ShowReadsBack(p: PathBuf)
    requires p.Valid()
    ensures Parse(Show(p)) == p
  {
    match p.root
    case Absolute => AbsoluteReadsBack(p.parts);
    case Dot => DotReadsBack(p.parts);
    case Plain => PlainReadsBack(p.parts);
  }

  lemma AbsoluteReadsBack(parts: seq<Part>)
    requires AllValid(parts)
    ensures Parse("/" + Print(parts)) == PathBuf(Absolute, parts)
  {
    PrefixedComponents("", parts);
    assert "" + "/" + Print(parts) == "/" + Print(parts);
  }

  lemma DotReadsBack(parts: seq<Part>)
    requires AllValid(parts)
    ensures Parse(Show(PathBuf(Dot, parts))) == PathBuf(Dot, parts)
  {
    if parts != [] {
      PrefixedComponents(".", parts);
      assert "." + "/" + Print(parts) == "./" + Print(parts);
    } else {
      SplitPlain(".", '/');
      assert Significant(["."]) == [];
    }
  }

  lemma PlainReadsBack(parts: seq<Part>)
    requires AllValid(parts)
    ensures Parse(Print(parts)) == PathBuf(Plain, parts)
  {
    PrintReadsBack(parts);
    if parts != [] {
      PrintStart(parts);
    } else {
      SplitPlain("", '/');
    }
  }

  lemma PrefixedComponents(start: string, parts: seq<Part>)
    requires AllValid(parts) && (start == "" || start == ".")
    ensures Split(start + "/" + Print(parts), '/')[0] == start
    ensures Components(start + "/" + Print(parts)) == parts
  {
    SplitAtSeparator(start, '/', Print(parts));
    SplitPlain(start, '/');
    PrintReadsBack(parts);
    assert Split(start + "/" + Print(parts), '/') == [start] + Split(Print(parts), '/');
    assert ([start] + Split(Print(parts), '/'))[1..] == Split(Print(parts), '/');
  }

  /** `Path::join`. */
  function JoinPath(base: PathBuf, p: PathBuf): PathBuf {
    if p.root == Absolute || base == PathBuf(Plain, []) then p else PathBuf(base.root, base.parts + p.parts)
  }

  /** `Path::starts_with`, by components. */
  predicate Under(base: PathBuf, p: PathBuf) {
    base == PathBuf(Plain, []) || (base.root == p.root && base.parts <= p.parts)
  }

  /** The path as an index spells it: below the repository if it lies there, and as it stands otherwise. */
  function Relative(repo: PathBuf, p: PathBuf): PathBuf {
    if repo == PathBuf(Plain, []) || !Under(repo, p) then p else PathBuf(Plain, p.parts[|repo.parts|..])
  }

  function Locate(cwd: Loc, p: PathBuf): Loc {
    if p.root == Absolute then p.parts else cwd + p.parts
  }

  /** Where the verifier looks for what an index spells `s`. */
  function Denotes(cwd: Loc, repo: PathBuf, s: string): Loc {
    Locate(cwd, JoinPath(repo, Parse(s)))
  }

  /**
   * A caller can check this: the path is absolute or under the repository, or the repository is where the process
   * runs.
   */
  predicate Anchored(cwd: Loc, repo: PathBuf, p: PathBuf) {
    p.root == Absolute || Under(repo, p) || Locate(cwd, repo) == cwd
  }

  /** The verifier finds a path where the producer left it exactly when the path is anchored. */
  lemma SpellingDenotesIffAnchored(cwd: Loc, repo: PathBuf, p: PathBuf)
    requires p.Valid()
    ensures Denotes(cwd, repo, Show(Relative(repo, p))) == Locate(cwd, p) <==> Anchored(cwd, repo, p)
  {
    ShownReads(repo, p);
    if Under(repo, p) {
      RelativeBelow(cwd, repo, p);
    } else if p.root != Absolute {
      RelativeElsewhere(cwd, repo, p);
    }
  }

  lemma ShownReads(repo: PathBuf, p: PathBuf)
    requires p.Valid()
    ensures Parse(Show(Relative(repo, p))) == Relative(repo, p)
  {
    ShowReadsBack(Relative(repo, p));
  }

  lemma RelativeBelow(cwd: Loc, repo: PathBuf, p: PathBuf)
    requires Under(repo, p)
    ensures Locate(cwd, JoinPath(repo, Relative(repo, p))) == Locate(cwd, p)
  {
    if repo != PathBuf(Plain, []) {
      assert repo.parts + p.parts[|repo.parts|..] == p.parts;
    }
  }

  lemma RelativeElsewhere(cwd: Loc, repo: PathBuf, p: PathBuf)
    requires p.root != Absolute && repo != PathBuf(Plain, [])
    ensures Locate(cwd, JoinPath(repo, p)) == Locate(cwd, p) <==> Locate(cwd, repo) == cwd
  {
    var at := Locate(cwd, repo);
    assert Locate(cwd, JoinPath(repo, p)) == at + p.parts;
    if at + p.parts == cwd + p.parts {
      assert |at| == |cwd|;
      assert at == (at + p.parts)[..|at|] == (cwd + p.parts)[..|cwd|] == cwd;
    }
  }

  // ----- file names -----

  /** `{:02}` */
  function Pad2(n: nat): string {
    if n < 10 then "0" + Decimal(n) else Decimal(n)
  }

  predicate IsSlugChar(c: char) {
    '0' <= c <= '9' || 'a' <= c <= 'z' || 'A' <= c <= 'Z' || c == '-'
  }

  function Slugify(value: string): string {
    if value == "" then ""
    else [if IsSlugChar(value[0]) then value[0] else '-'] + Slugify(value[1..])
  }

  /** Half a byte of a hash: one hexadecimal digit. */
  type Nibble = n: nat | n < 16

  function Hex(nibbles: seq<Nibble>): string {
    if nibbles == [] then "" else [HexDigit(nibbles[0])] + Hex(nibbles[1..])
  }

  function HexDigit(d: Nibble): char {
    "0123456789abcdef"[d]
  }

  ghost predicate AllSlugChars(s: string) {
    forall i | 0 <= i < |s| :: IsSlugChar(s[i])
  }

  /** A slug and a hash hold letters, digits and dashes only. */
  lemma {:induction false} SlugIsPlain(value: string)
    ensures |Slugify(value)| == |value| && AllSlugChars(Slugify(value))
  {
    if value != "" {
      SlugIsPlain(value[1..]);
    }
  }

  lemma {:induction false} HexIsPlain(nibbles: seq<Nibble>)
    ensures |Hex(nibbles)| == |nibbles| && AllSlugChars(Hex(nibbles))
  {
    if nibbles != [] {
      HexIsPlain(nibbles[1..]);
      var d := nibbles[0];
      assert d < 10 ==> HexDigit(d) in "0123456789";
      assert d >= 10 ==> HexDigit(d) in "abcdef";
    }
  }

  /** The name of the `index`th run's file: its number, its lane, and a short hash of its command. */
  function FileName(index: nat, lane: string, hash: string, extension: string): string {
    Pad2(index + 1) + "-" + FileTail(lane, hash, extension)
  }

  function FileTail(lane: string, hash: string, extension: string): string {
    Slugify(lane) + "-" + hash + extension
  }

  lemma {:induction false} DecimalStart(n: nat)
    requires n > 0
    ensures Decimal(n)[0] != '0'
  {
    if n >= 10 {
      DecimalStart(n / 10);
    }
  }

  lemma Pad2Injective(m: nat, n: nat)
    requires Pad2(m) == Pad2(n)
    ensures m == n
  {
    if m >= 10 {
      DecimalStart(m);
    }
    if n >= 10 {
      DecimalStart(n);
    }
    assert m < 10 <==> Pad2(m)[0] == '0';
    assert n < 10 <==> Pad2(n)[0] == '0';
    assert m < 10 ==> Decimal(m) == Pad2(m)[1..];
    assert n < 10 ==> Decimal(n) == Pad2(n)[1..];
    DecimalInjective(m, n);
  }

  lemma NoDash(n: nat)
    ensures '-' !in Pad2(n)
  {
  }

  /** What stands before the first dash is determined by the whole. */
  lemma FirstDash(a: string, x: string, b: string, y: string)
    requires '-' !in a && '-' !in b && a + "-" + x == b + "-" + y
    ensures a == b
  {
    var s := a + "-" + x;
    assert s[|a|] == '-' && s[|b|] == '-';
    assert forall i | 0 <= i < |a| :: s[i] == a[i] != '-';
    assert forall i | 0 <= i < |b| :: s[i] == b[i] != '-';
    assert |a| == |b|;
    assert s[..|a|] == a && s[..|b|] == b;
  }

  /** No two runs share a file name, whatever their lanes, commands and hashes. */
  lemma FileNameInjective(i: nat, lane: string, hash: string, ext: string, j: nat, lane': string, hash': string,
                          ext': string)
    requires FileName(i, lane, hash, ext) == FileName(j, lane', hash', ext')
    ensures i == j
  {
    NoDash(i + 1);
    NoDash(j + 1);
    FirstDash(Pad2(i + 1), FileTail(lane, hash, ext), Pad2(j + 1), FileTail(lane', hash', ext'));
    Pad2Injective(i + 1, j + 1);
  }

  const JSON := ".json"
  const LOG := ".log"

  /** A receipt is never written over a log. */
  lemma ReceiptIsNoLog(i: nat, lane: string, hash: string, j: nat, lane': string, hash': string)
    ensures FileName(i, lane, hash, JSON) != FileName(j, lane', hash', LOG)
  {
    var a, b := FileName(i, lane, hash, JSON), FileName(j, lane', hash', LOG);
    assert a[|a| - 1] == 'n' && b[|b| - 1] == 'g';
  }

  /** A file name is one component of a path. */
  lemma FileNameIsComponent(index: nat, lane: string, hash: string, ext: string)
    requires AllSlugChars(hash) && (ext == JSON || ext == LOG)
    ensures Name(FileName(index, lane, hash, ext)).Valid()
  {
    var name := FileName(index, lane, hash, ext);
    var number := Pad2(index + 1);
    assert number != "" && name[0] == number[0] && '0' <= number[0] <= '9';
    SlugIsPlain(lane);
    assert '/' !in number && '/' !in Slugify(lane) && '/' !in hash && '/' !in ext;
  }
}
