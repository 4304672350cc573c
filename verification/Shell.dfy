/** Printed commands, and the word splitting of section 2.2 of the POSIX Shell Command Language. */
module Shell {
  import opened Wrappers
  import opened Text

  // ---- the shell ----------------------------------------------------------

  datatype Mode = Blank | Bare | Single | Double

  /** Characters that mean something to the shell when they stand outside quotes. */
  predicate Special(c: char) {
    c == '|' || c == '&' || c == ';' || c == '<' || c == '>' || c == '(' || c == ')' || c == '$' || c == '`'
    || c == '\n' || c == '*' || c == '?' || c == '[' || c == '#' || c == '~' || c == '=' || c == '%'
    || c == '{' || c == '}' || c == '!'
  }

  /** In double quotes a backslash escapes only these. */
  predicate EscapedInDouble(c: char) {
    c == '$' || c == '`' || c == '"' || c == '\\'
  }

  /**
   * Reads a simple command: the words read so far, the word being read and the quoting in force. There
   * is no result when a quotation is left open or an unquoted character asks for more than splitting.
   */
  function Scan(s: string, mode: Mode, word: string, words: seq<string>): Option<seq<string>>
    decreases |s|
  {
    if s == "" then
      (match mode
       case Blank => Some(words)
       case Bare => Some(words + [word])
       case _ => None)
    else
      var c, rest := s[0], s[1..];
      match mode
      case Single => if c == '\'' then Scan(rest, Bare, word, words) else Scan(rest, Single, word + [c], words)
      case Double =>
        if c == '"' then Scan(rest, Bare, word, words)
        else if c == '$' || c == '`' then None
        else if c == '\\' && rest != "" && rest[0] == '\n' then Scan(rest[1..], Double, word, words)
        else if c == '\\' && rest != "" && EscapedInDouble(rest[0]) then
          Scan(rest[1..], Double, word + [rest[0]], words)
        else Scan(rest, Double, word + [c], words)
      case _ =>
        if c == ' ' || c == '\t' then Scan(rest, Blank, "", if mode == Blank then words else words + [word])
        else if c == '\'' then Scan(rest, Single, word, words)
        else if c == '"' then Scan(rest, Double, word, words)
        else if c == '\\' then
          if rest == "" then None
          else if rest[0] == '\n' then Scan(rest[1..], mode, word, words)
          else Scan(rest[1..], Bare, word + [rest[0]], words)
        else if Special(c) then None
        else Scan(rest, Bare, word + [c], words)
  }

  function Words(s: string): Option<seq<string>> {
    Scan(s, Blank, "", [])
  }

  // ---- the quoters --------------------------------------------------------

  /** The two quoters differ in how they write an apostrophe. */
  datatype Quoter = Kickoff | Hooks {
    function Apostrophe(): string {
      if Kickoff? then "'\"'\"'" else "'\\''"
    }
  }

  /** How a character is written inside single quotes. */
  function Written(q: Quoter, c: char): string {
    if c == '\'' then q.Apostrophe() else [c]
  }

  /** `replace('\'', ..)` */
  function Escape(q: Quoter, value: string): string {
    if value == "" then "" else Written(q, value[0]) + Escape(q, value[1..])
  }

  function ShellQuote(q: Quoter, value: string): string {
    "'" + Escape(q, value) + "'"
  }

  lemma ScanKickoffApostrophe(s: string, rest: string, word: string, words: seq<string>)
    requires s == "'\"'\"'" + rest
    ensures Scan(s, Single, word, words) == Scan(rest, Single, word + "'", words)
  {
    assert s[0] == '\'' && s[1..] == "\"'\"'" + rest;
    assert s[1..][0] == '"' && s[1..][1..] == "'\"'" + rest;
    assert s[1..][1..][1..] == "\"'" + rest;
    assert ("\"'" + rest)[1..] == "'" + rest && ("'" + rest)[1..] == rest;
    calc {
      Scan(s, Single, word, words);
      Scan("\"'\"'" + rest, Bare, word, words);
      Scan("'\"'" + rest, Double, word, words);
      Scan("\"'" + rest, Double, word + "'", words);
      Scan("'" + rest, Bare, word + "'", words);
      Scan(rest, Single, word + "'", words);
    }
  }

  lemma ScanHooksApostrophe(s: string, rest: string, word: string, words: seq<string>)
    requires s == "'\\''" + rest
    ensures Scan(s, Single, word, words) == Scan(rest, Single, word + "'", words)
  {
    assert s[0] == '\'' && s[1..] == "\\''" + rest;
    assert ("\\''" + rest)[1..] == "''" + rest && ("''" + rest)[1..] == "'" + rest;
    assert ("'" + rest)[1..] == rest;
    calc {
      Scan(s, Single, word, words);
      Scan("\\''" + rest, Bare, word, words);
      Scan("'" + rest, Bare, word + "'", words);
      Scan(rest, Single, word + "'", words);
    }
  }

  lemma ScanPlainInSingle(c: char, s: string, rest: string, word: string, words: seq<string>)
    requires c != '\'' && s == [c] + rest
    ensures Scan(s, Single, word, words) == Scan(rest, Single, word + [c], words)
  {
    assert s[1..] == rest;
  }

  /** A written character adds itself to the word. */
  lemma ScanWritten(q: Quoter, c: char, s: string, rest: string, word: string, words: seq<string>)
    requires s == Written(q, c) + rest
    ensures Scan(s, Single, word, words) == Scan(rest, Single, word + [c], words)
  {
    if c != '\'' {
      ScanPlainInSingle(c, s, rest, word, words);
    } else if q.Kickoff? {
      ScanKickoffApostrophe(s, rest, word, words);
    } else {
      ScanHooksApostrophe(s, rest, word, words);
    }
  }

  lemma ScanClose(s: string, rest: string, word: string, words: seq<string>)
    requires s == "'" + rest
    ensures Scan(s, Single, word, words) == Scan(rest, Bare, word, words)
  {
    assert s[1..] == rest;
  }

  lemma {:induction false} ScanEscaped(q: Quoter, value: string, s: string, rest: string, word: string,
                                       words: seq<string>)
    requires s == Escape(q, value) + ("'" + rest)
    ensures Scan(s, Single, word, words) == Scan(rest, Bare, word + value, words)
    decreases value
  {
    if value == "" {
      assert s == "'" + rest && word + value == word;
      ScanClose(s, rest, word, words);
    } else {
      var tail := Escape(q, value[1..]) + ("'" + rest);
      assert s == Written(q, value[0]) + tail;
      ScanWritten(q, value[0], s, tail, word, words);
      ScanEscaped(q, value[1..], tail, rest, word + [value[0]], words);
      assert word + [value[0]] + value[1..] == word + value;
    }
  }

  /** A quoted value is read as one word, whatever characters it holds. */
  lemma ScanQuoted(q: Quoter, value: string, rest: string, words: seq<string>)
    ensures Scan(ShellQuote(q, value) + rest, Blank, "", words) == Scan(rest, Bare, value, words)
  {
    var s := ShellQuote(q, value) + rest;
    assert s[0] == '\'' && s[1..] == Escape(q, value) + ("'" + rest);
    ScanEscaped(q, value, s[1..], rest, "", words);
    assert "" + value == value;
  }

  /** Both quoters denote the value they quote. */
  lemma QuotersAgree(value: string)
    ensures Words(ShellQuote(Kickoff, value)) == Words(ShellQuote(Hooks, value)) == Some([value])
  {
    ScanQuoted(Kickoff, value, "", []);
    ScanQuoted(Hooks, value, "", []);
    assert [] + [value] == [value];
    assert ShellQuote(Kickoff, value) + "" == ShellQuote(Kickoff, value);
    assert ShellQuote(Hooks, value) + "" == ShellQuote(Hooks, value);
  }

  // ---- command lines ------------------------------------------------------

  /** A lower-case letter, a digit, a hyphen, a dot or a slash: nothing the shell looks at. */
  predicate PlainChar(c: char) {
    'a' <= c <= 'z' || '-' <= c <= '9'
  }

  predicate PlainText(s: string) {
    forall i | 0 <= i < |s| :: PlainChar(s[i])
  }

  /** A piece of a command template: a fixed word, or a value printed in quotes. */
  datatype Piece = Fixed(word: string) | Quoted(word: string) {
    function Print(): string {
      if Fixed? then word else ShellQuote(Kickoff, word)
    }

    predicate Valid() {
      Fixed? ==> word != "" && PlainText(word)
    }
  }

  function Printed(pieces: seq<Piece>): seq<string> {
    seq(|pieces|, i requires 0 <= i < |pieces| => pieces[i].Print())
  }

  function WordsOf(pieces: seq<Piece>): seq<string> {
    seq(|pieces|, i requires 0 <= i < |pieces| => pieces[i].word)
  }

  /** A command line: the pieces separated by single spaces. */
  function Line(pieces: seq<Piece>): string {
    Join(Printed(pieces), " ")
  }

  ghost predicate AllPieces(pieces: seq<Piece>) {
    forall i | 0 <= i < |pieces| :: pieces[i].Valid()
  }

  lemma {:induction false} ScanPlain(text: string, rest: string, word: string, words: seq<string>)
    requires PlainText(text)
    ensures Scan(text + rest, Bare, word, words) == Scan(rest, Bare, word + text, words)
    decreases text
  {
    if text == "" {
      assert text + rest == rest && word + text == word;
    } else {
      var s := text + rest;
      assert PlainChar(text[0]);
      assert s[0] == text[0] && s[1..] == text[1..] + rest;
      ScanPlain(text[1..], rest, word + [text[0]], words);
      assert word + [text[0]] + text[1..] == word + text;
    }
  }

  lemma ScanFirst(c: char, s: string, rest: string, words: seq<string>)
    requires PlainChar(c) && s == [c] + rest
    ensures Scan(s, Blank, "", words) == Scan(rest, Bare, [c], words)
  {
    assert s[1..] == rest && "" + [c] == [c];
  }

  lemma ScanFixed(text: string, rest: string, words: seq<string>)
    requires text != "" && PlainText(text)
    ensures Scan(text + rest, Blank, "", words) == Scan(rest, Bare, text, words)
  {
    var s := text + rest;
    assert PlainChar(text[0]);
    assert s == [text[0]] + (text[1..] + rest);
    ScanFirst(text[0], s, text[1..] + rest, words);
    ScanPlain(text[1..], rest, [text[0]], words);
    assert [text[0]] + text[1..] == text;
  }

  lemma ScanPiece(piece: Piece, rest: string, words: seq<string>)
    requires piece.Valid()
    ensures Scan(piece.Print() + rest, Blank, "", words) == Scan(rest, Bare, piece.word, words)
  {
    if piece.Fixed? {
      ScanFixed(piece.word, rest, words);
    } else {
      ScanQuoted(Kickoff, piece.word, rest, words);
    }
  }

  lemma LineSplit(pieces: seq<Piece>)
    requires |pieces| > 1
    ensures Line(pieces) == pieces[0].Print() + (" " + Line(pieces[1..]))
    ensures WordsOf(pieces) == [pieces[0].word] + WordsOf(pieces[1..])
  {
    var rest := pieces[1..];
    assert Printed(pieces) == [pieces[0].Print()] + Printed(rest);
    JoinFirst(Printed(pieces), pieces[0].Print(), Printed(rest), " ");
    assert WordsOf(pieces) == [pieces[0].word] + WordsOf(rest);
  }

  lemma JoinFirst(parts: seq<string>, first: string, rest: seq<string>, sep: string)
    requires parts == [first] + rest && rest != []
    ensures Join(parts, sep) == first + (sep + Join(rest, sep))
  {
    assert parts[1..] == rest;
  }

  lemma ScanSpace(s: string, rest: string, word: string, words: seq<string>)
    requires s == " " + rest
    ensures Scan(s, Bare, word, words) == Scan(rest, Blank, "", words + [word])
  {
    assert s[1..] == rest;
  }

  lemma {:induction false} ScanLine(pieces: seq<Piece>, rest: string, words: seq<string>)
    requires AllPieces(pieces) && pieces != []
    ensures var last := |pieces| - 1;
            Scan(Line(pieces) + rest, Blank, "", words)
            == Scan(rest, Bare, pieces[last].word, words + WordsOf(pieces)[..last])
    decreases pieces
  {
    if |pieces| == 1 {
      assert Line(pieces) == pieces[0].Print();
      ScanPiece(pieces[0], rest, words);
      assert words + WordsOf(pieces)[..0] == words;
    } else {
      var more, last := words + [pieces[0].word], |pieces| - 1;
      var tail := Line(pieces[1..]) + rest;
      LineSplit(pieces);
      ScanHead(pieces[0], Line(pieces) + rest, tail, words);
      ScanLine(pieces[1..], rest, more);
      assert more + WordsOf(pieces[1..])[..last - 1] == words + WordsOf(pieces)[..last];
    }
  }

  lemma ScanHead(piece: Piece, s: string, tail: string, words: seq<string>)
    requires piece.Valid() && s == piece.Print() + (" " + tail)
    ensures Scan(s, Blank, "", words) == Scan(tail, Blank, "", words + [piece.word])
  {
    ScanPiece(piece, " " + tail, words);
    ScanSpace(" " + tail, tail, piece.word, words);
  }

  /** A command line splits into the words of its pieces. */
  lemma LineReadsBack(pieces: seq<Piece>)
    requires AllPieces(pieces)
    ensures Words(Line(pieces)) == Some(WordsOf(pieces))
  {
    if pieces != [] {
      ScanLine(pieces, "", []);
      assert Line(pieces) + "" == Line(pieces);
      var last := |pieces| - 1;
      assert [] + WordsOf(pieces)[..last] + [pieces[last].word] == WordsOf(pieces);
    } else {
      assert Printed(pieces) == [] && WordsOf(pieces) == [];
    }
  }

  lemma LineConcat(a: seq<Piece>, b: seq<Piece>)
    requires a != [] && b != []
    ensures Line(a + b) == Line(a) + " " + Line(b)
    ensures WordsOf(a + b) == WordsOf(a) + WordsOf(b)
  {
    assert Printed(a + b) == Printed(a) + Printed(b);
    JoinConcat(Printed(a), Printed(b), " ");
  }

  // ---- kickoff ------------------------------------------------------------

  function ChangedArg(path: string): string {
    "--changed " + ShellQuote(Kickoff, path)
  }

  function BuildChangedArgs(changed: seq<string>): string {
    Join(ChangedArgList(changed), " ")
  }

  function ChangedArgList(changed: seq<string>): seq<string> {
    if changed == [] then [] else [ChangedArg(changed[0])] + ChangedArgList(changed[1..])
  }

  function ChangedPieces(changed: seq<string>): seq<Piece> {
    if changed == [] then [] else [Fixed("--changed"), Quoted(changed[0])] + ChangedPieces(changed[1..])
  }

  function ChangedWords(changed: seq<string>): seq<string> {
    if changed == [] then [] else ["--changed", changed[0]] + ChangedWords(changed[1..])
  }

  lemma ChangedFlagIsPlain()
    ensures Fixed("--changed").Valid()
  {
  }

  lemma OneChangedArg(path: string)
    ensures Line([Fixed("--changed"), Quoted(path)]) == ChangedArg(path)
    ensures WordsOf([Fixed("--changed"), Quoted(path)]) == ["--changed", path]
  {
    var pieces := [Fixed("--changed"), Quoted(path)];
    LineSplit(pieces);
    assert pieces[1..] == [Quoted(path)];
    assert Line(pieces[1..]) == ShellQuote(Kickoff, path);
    assert "--changed" + " " == "--changed ";
  }

  lemma ChangedListSplit(changed: seq<string>)
    requires |changed| > 1
    ensures BuildChangedArgs(changed) == ChangedArg(changed[0]) + " " + BuildChangedArgs(changed[1..])
  {
  }

  lemma {:induction false} ChangedArgsAsPieces(changed: seq<string>)
    requires changed != []
    ensures ChangedPieces(changed) != [] && AllPieces(ChangedPieces(changed))
    ensures Line(ChangedPieces(changed)) == BuildChangedArgs(changed)
    ensures WordsOf(ChangedPieces(changed)) == ChangedWords(changed)
  {
    ChangedFlagIsPlain();
    OneChangedArg(changed[0]);
    var head := [Fixed("--changed"), Quoted(changed[0])];
    if |changed| == 1 {
      assert ChangedPieces(changed) == head;
      assert ChangedArgList(changed) == [ChangedArg(changed[0])];
      assert ChangedWords(changed) == ["--changed", changed[0]];
    } else {
      ChangedArgsAsPieces(changed[1..]);
      ChangedListSplit(changed);
      LineConcat(head, ChangedPieces(changed[1..]));
    }
  }

  /** The printed arguments split into a flag and a path for each changed path. */
  lemma ChangedArgsReadBack(changed: seq<string>)
    ensures Words(BuildChangedArgs(changed)) == Some(ChangedWords(changed))
  {
    if changed != [] {
      ChangedArgsAsPieces(changed);
      LineReadsBack(ChangedPieces(changed));
    }
  }

  function Tool(command: string): seq<Piece> {
    [Fixed("cargo"), Fixed("run"), Fixed("-p"), Fixed("jankurai"), Fixed("--"), Fixed(command)]
  }

  /** A command template: pieces, an argument list that is already printed, and more pieces. */
  function Template(before: seq<Piece>, args: string, after: seq<Piece>): string {
    Line(before) + " " + args + " " + Line(after)
  }

  function PackHead(repo: string, intent: string): seq<Piece> {
    Tool("context-pack") + [Quoted(repo), Fixed("--task"), Quoted(intent)]
  }

  function KickoffHead(repo: string, intent: string): seq<Piece> {
    Tool("kickoff") + [Quoted(repo), Fixed("--intent"), Quoted(intent)]
  }

  function Outputs(json: string, md: string): seq<Piece> {
    [Fixed("--out"), Fixed(json), Fixed("--md"), Fixed(md)]
  }

  function PackTail(): seq<Piece> {
    Outputs("target/jankurai/context-pack.json", "target/jankurai/context-pack.md")
  }

  function KickoffTail(): seq<Piece> {
    Outputs("target/jankurai/kickoff.json", "target/jankurai/kickoff.md")
  }

  function ProveTail(): seq<Piece> {
    [Fixed("--plan-out"), Fixed("target/jankurai/proof-plan.json"),
     Fixed("--plan-md"), Fixed("target/jankurai/proof-plan.md"),
     Fixed("--out-dir"), Fixed("target/jankurai/proof-receipts"),
     Fixed("--evidence-index"), Fixed("target/jankurai/evidence-index.json")]
  }

  function WitnessTail(): seq<Piece> {
    Outputs("target/jankurai/merge-witness.json", "target/jankurai/merge-witness.md")
  }

  function RepairPieces(repo: string): seq<Piece> {
    Tool("repair-plan") + [Quoted(repo), Fixed("--from"), Fixed("target/jankurai/repo-score.json")]
    + Outputs("target/jankurai/repair-plan.json", "target/jankurai/repair-plan.md")
  }

  function KickoffArgs(changedFrom: Option<string>, changed: seq<string>): string {
    match changedFrom
    case Some(base) => "--changed-from " + ShellQuote(Kickoff, base)
    case None => BuildChangedArgs(changed)
  }

  function KickoffArgPieces(changedFrom: Option<string>, changed: seq<string>): seq<Piece> {
    match changedFrom
    case Some(base) => [Fixed("--changed-from"), Quoted(base)]
    case None => ChangedPieces(changed)
  }

  /** `repair`: a generated zone is touched or a decision asks for human review. */
  function BuildNextCommands(repo: string, intent: string, changedFrom: Option<string>, changed: seq<string>,
                             repair: bool)
    : seq<string>
  {
    if changed == [] then
      [Template(KickoffHead(repo, intent), "--changed <PATH>...", KickoffTail()),
       Template(PackHead(repo, intent), "--changed <PATH>...", PackTail())]
    else
      var changedArgs := BuildChangedArgs(changed);
      [Template(PackHead(repo, intent), changedArgs, PackTail()),
       Template(Tool("prove") + [Quoted(repo)], changedArgs, ProveTail()),
       Template(Tool("witness") + [Quoted(repo)], changedArgs, WitnessTail()),
       Template(KickoffHead(repo, intent), KickoffArgs(changedFrom, changed), KickoffTail())]
      + if repair then [Line(RepairPieces(repo))] else []
  }

  const TOOL_WORDS := ["cargo", "run", "-p", "jankurai", "--"]

  function PackWords(repo: string, intent: string, changed: seq<string>): seq<string> {
    TOOL_WORDS + ["context-pack", repo, "--task", intent] + ChangedWords(changed)
    + ["--out", "target/jankurai/context-pack.json", "--md", "target/jankurai/context-pack.md"]
  }

  function ProveWords(repo: string, changed: seq<string>): seq<string> {
    TOOL_WORDS + ["prove", repo] + ChangedWords(changed)
    + ["--plan-out", "target/jankurai/proof-plan.json", "--plan-md", "target/jankurai/proof-plan.md",
       "--out-dir", "target/jankurai/proof-receipts", "--evidence-index", "target/jankurai/evidence-index.json"]
  }

  function WitnessWords(repo: string, changed: seq<string>): seq<string> {
    TOOL_WORDS + ["witness", repo] + ChangedWords(changed)
    + ["--out", "target/jankurai/merge-witness.json", "--md", "target/jankurai/merge-witness.md"]
  }

  function KickoffWords(repo: string, intent: string, changedFrom: Option<string>, changed: seq<string>): seq<string> {
    TOOL_WORDS + ["kickoff", repo, "--intent", intent]
    + (if changedFrom.Some? then ["--changed-from", changedFrom.value] else ChangedWords(changed))
    + ["--out", "target/jankurai/kickoff.json", "--md", "target/jankurai/kickoff.md"]
  }

  function RepairWords(repo: string): seq<string> {
    TOOL_WORDS + ["repair-plan", repo, "--from", "target/jankurai/repo-score.json",
                  "--out", "target/jankurai/repair-plan.json", "--md", "target/jankurai/repair-plan.md"]
  }

  /** The argument lists the printed commands are meant to have. */
  function IntendedCommands(repo: string, intent: string, changedFrom: Option<string>, changed: seq<string>,
                            repair: bool)
    : seq<seq<string>>
  {
    [PackWords(repo, intent, changed), ProveWords(repo, changed), WitnessWords(repo, changed),
     KickoffWords(repo, intent, changedFrom, changed)]
    + if repair then [RepairWords(repo)] else []
  }

  lemma PlainPrograms()
    ensures PlainText("cargo")
         && PlainText("run")
         && PlainText("-p")
         && PlainText("jankurai")
         && PlainText("--")
         && PlainText("--task")
         && PlainText("--intent")
         && PlainText("--out")
         && PlainText("--md")
         && PlainText("--from")
  {
  }

  lemma PlainFlags()
    ensures PlainText("--plan-out")
         && PlainText("--plan-md")
         && PlainText("--out-dir")
         && PlainText("--evidence-index")
         && PlainText("--changed-from")
         && PlainText("--changed")
  {
  }

  lemma PlainSubcommands()
    ensures PlainText("context-pack")
         && PlainText("prove")
         && PlainText("witness")
         && PlainText("kickoff")
         && PlainText("repair-plan")
  {
  }

  lemma PlainPackFiles()
    ensures PlainText("target/jankurai/context-pack.json")
         && PlainText("target/jankurai/context-pack.md")
  {
  }

  lemma PlainKickoffFiles()
    ensures PlainText("target/jankurai/kickoff.json")
         && PlainText("target/jankurai/kickoff.md")
  {
  }

  lemma PlainPlanFiles()
    ensures PlainText("target/jankurai/proof-plan.json")
         && PlainText("target/jankurai/proof-plan.md")
  {
  }

  lemma PlainEvidenceFiles()
    ensures PlainText("target/jankurai/proof-receipts")
         && PlainText("target/jankurai/evidence-index.json")
  {
  }

  lemma PlainWitnessFiles()
    ensures PlainText("target/jankurai/merge-witness.json")
         && PlainText("target/jankurai/merge-witness.md")
  {
  }

  lemma PlainRepairFiles()
    ensures PlainText("target/jankurai/repair-plan.json")
         && PlainText("target/jankurai/repair-plan.md")
  {
  }

  lemma PlainScoreFile()
    ensures PlainText("target/jankurai/repo-score.json")
  {
  }

  lemma ToolValid(command: string)
    requires command != "" && PlainText(command)
    ensures AllPieces(Tool(command))
  {
    PlainPrograms();
  }

  lemma HeadsValid(repo: string, intent: string)
    ensures AllPieces(PackHead(repo, intent)) && AllPieces(KickoffHead(repo, intent))
  {
    PlainSubcommands();
    ToolValid("context-pack");
    ToolValid("kickoff");
    PlainPrograms();
  }

  lemma ToolsValid(repo: string)
    ensures AllPieces(Tool("prove") + [Quoted(repo)]) && AllPieces(Tool("witness") + [Quoted(repo)])
  {
    PlainSubcommands();
    ToolValid("prove");
    ToolValid("witness");
  }

  lemma OutputsValid(json: string, md: string)
    requires json != "" && md != "" && PlainText(json) && PlainText(md)
    ensures AllPieces(Outputs(json, md))
  {
    PlainPrograms();
  }

  lemma PackTailValid()
    ensures AllPieces(PackTail())
  {
    PlainPackFiles();
    OutputsValid("target/jankurai/context-pack.json", "target/jankurai/context-pack.md");
  }

  lemma KickoffTailValid()
    ensures AllPieces(KickoffTail())
  {
    PlainKickoffFiles();
    OutputsValid("target/jankurai/kickoff.json", "target/jankurai/kickoff.md");
  }

  lemma WitnessTailValid()
    ensures AllPieces(WitnessTail())
  {
    PlainWitnessFiles();
    OutputsValid("target/jankurai/merge-witness.json", "target/jankurai/merge-witness.md");
  }

  lemma ProveTailValid()
    ensures AllPieces(ProveTail())
  {
    PlainFlags();
    PlainPlanFiles();
    PlainEvidenceFiles();
  }

  lemma RepairValid(repo: string)
    ensures AllPieces(RepairPieces(repo))
  {
    PlainSubcommands();
    ToolValid("repair-plan");
    PlainRepairFiles();
    OutputsValid("target/jankurai/repair-plan.json", "target/jankurai/repair-plan.md");
    PlainScoreFile();
    PlainPrograms();
  }

  lemma TemplateReadsBack(before: seq<Piece>, args: seq<Piece>, after: seq<Piece>)
    requires before != [] && args != [] && after != []
    requires AllPieces(before) && AllPieces(args) && AllPieces(after)
    ensures Words(Template(before, Line(args), after)) == Some(WordsOf(before) + WordsOf(args) + WordsOf(after))
  {
    LineConcat(before, args);
    LineConcat(before + args, after);
    LineReadsBack(before + args + after);
  }

  lemma KickoffArgsAsPieces(changedFrom: Option<string>, changed: seq<string>)
    requires changed != []
    ensures var pieces := KickoffArgPieces(changedFrom, changed);
            && pieces != [] && AllPieces(pieces) && Line(pieces) == KickoffArgs(changedFrom, changed)
            && WordsOf(pieces)
               == if changedFrom.Some? then ["--changed-from", changedFrom.value] else ChangedWords(changed)
  {
    match changedFrom
    case Some(base) =>
      PlainFlags();
      var pieces := [Fixed("--changed-from"), Quoted(base)];
      LineSplit(pieces);
      assert pieces[1..] == [Quoted(base)];
      assert Line(pieces[1..]) == ShellQuote(Kickoff, base);
      assert "--changed-from" + " " == "--changed-from ";
    case None => ChangedArgsAsPieces(changed);
  }

  lemma ToolWords(command: string, repo: string)
    ensures WordsOf(Tool(command) + [Quoted(repo)]) == TOOL_WORDS + [command, repo]
  {
  }

  lemma HeadWords(repo: string, intent: string)
    ensures WordsOf(PackHead(repo, intent)) == TOOL_WORDS + ["context-pack", repo, "--task", intent]
    ensures WordsOf(KickoffHead(repo, intent)) == TOOL_WORDS + ["kickoff", repo, "--intent", intent]
  {
  }

  lemma OutputWords(json: string, md: string)
    ensures WordsOf(Outputs(json, md)) == ["--out", json, "--md", md]
  {
  }

  lemma ProveTailWords()
    ensures WordsOf(ProveTail())
         == ["--plan-out", "target/jankurai/proof-plan.json", "--plan-md", "target/jankurai/proof-plan.md",
             "--out-dir", "target/jankurai/proof-receipts", "--evidence-index", "target/jankurai/evidence-index.json"]
  {
  }

  lemma PackReadsBack(repo: string, intent: string, changed: seq<string>)
    requires changed != []
    ensures Words(Template(PackHead(repo, intent), BuildChangedArgs(changed), PackTail()))
         == Some(PackWords(repo, intent, changed))
  {
    HeadsValid(repo, intent);
    PackTailValid();
    ChangedArgsAsPieces(changed);
    TemplateReadsBack(PackHead(repo, intent), ChangedPieces(changed), PackTail());
    HeadWords(repo, intent);
    OutputWords("target/jankurai/context-pack.json", "target/jankurai/context-pack.md");
  }

  lemma ProveReadsBack(repo: string, changed: seq<string>)
    requires changed != []
    ensures Words(Template(Tool("prove") + [Quoted(repo)], BuildChangedArgs(changed), ProveTail()))
         == Some(ProveWords(repo, changed))
  {
    ToolsValid(repo);
    ProveTailValid();
    ChangedArgsAsPieces(changed);
    TemplateReadsBack(Tool("prove") + [Quoted(repo)], ChangedPieces(changed), ProveTail());
    ToolWords("prove", repo);
    ProveTailWords();
  }

  lemma WitnessReadsBack(repo: string, changed: seq<string>)
    requires changed != []
    ensures Words(Template(Tool("witness") + [Quoted(repo)], BuildChangedArgs(changed), WitnessTail()))
         == Some(WitnessWords(repo, changed))
  {
    ToolsValid(repo);
    WitnessTailValid();
    ChangedArgsAsPieces(changed);
    TemplateReadsBack(Tool("witness") + [Quoted(repo)], ChangedPieces(changed), WitnessTail());
    ToolWords("witness", repo);
    OutputWords("target/jankurai/merge-witness.json", "target/jankurai/merge-witness.md");
  }

  lemma KickoffReadsBack(repo: string, intent: string, changedFrom: Option<string>, changed: seq<string>)
    requires changed != []
    ensures Words(Template(KickoffHead(repo, intent), KickoffArgs(changedFrom, changed), KickoffTail()))
         == Some(KickoffWords(repo, intent, changedFrom, changed))
  {
    HeadsValid(repo, intent);
    KickoffTailValid();
    KickoffArgsAsPieces(changedFrom, changed);
    TemplateReadsBack(KickoffHead(repo, intent), KickoffArgPieces(changedFrom, changed), KickoffTail());
    HeadWords(repo, intent);
    OutputWords("target/jankurai/kickoff.json", "target/jankurai/kickoff.md");
  }

  lemma RepairReadsBack(repo: string)
    ensures Words(Line(RepairPieces(repo))) == Some(RepairWords(repo))
  {
    RepairValid(repo);
    LineReadsBack(RepairPieces(repo));
    assert WordsOf(RepairPieces(repo)) == RepairWords(repo);
  }

  /** The placeholder of the commands printed without changed paths is a redirection to the shell. */
  lemma PlaceholderDoesNotReadBack(before: seq<Piece>, after: seq<Piece>)
    requires before != [] && AllPieces(before)
    ensures Words(Template(before, "--changed <PATH>...", after)).None?
  {
    var args := "--changed <PATH>...";
    var rest := " " + args + " " + Line(after);
    assert Template(before, args, after) == Line(before) + rest;
    ScanLine(before, rest, []);
    PlaceholderStops(rest, Line(after), before[|before| - 1].word, [] + WordsOf(before)[..|before| - 1]);
  }

  lemma PlaceholderStops(rest: string, after: string, word: string, words: seq<string>)
    requires rest == " " + "--changed <PATH>..." + " " + after
    ensures Scan(rest, Bare, word, words).None?
  {
    var open := " <PATH>... " + after;
    assert rest[0] == ' ' && rest[1..] == "--changed" + open;
    PlainFlags();
    ScanFixed("--changed", open, words + [word]);
    RedirectionStops(open, "--changed", words + [word]);
  }

  lemma RedirectionStops(open: string, word: string, words: seq<string>)
    requires |open| >= 2 && open[0] == ' ' && open[1] == '<'
    ensures Scan(open, Bare, word, words).None?
  {
  }

  ghost predicate AllReadBack(commands: seq<string>, intended: seq<seq<string>>) {
    |commands| == |intended| && forall i | 0 <= i < |commands| :: Words(commands[i]) == Some(intended[i])
  }

  lemma ReadBackConcat(a: seq<string>, wa: seq<seq<string>>, b: seq<string>, wb: seq<seq<string>>)
    requires AllReadBack(a, wa) && AllReadBack(b, wb)
    ensures AllReadBack(a + b, wa + wb)
  {
  }

  lemma ReadBackFour(c0: string, w0: seq<string>, c1: string, w1: seq<string>,
                     c2: string, w2: seq<string>, c3: string, w3: seq<string>)
    requires Words(c0) == Some(w0) && Words(c1) == Some(w1) && Words(c2) == Some(w2) && Words(c3) == Some(w3)
    ensures AllReadBack([c0, c1, c2, c3], [w0, w1, w2, w3])
  {
  }

  lemma ReadBackOne(c: string, w: seq<string>)
    requires Words(c) == Some(w)
    ensures AllReadBack([c], [w])
  {
  }

  /** With changed paths, the shell reads every printed command as its intended argument list. */
  lemma CommandsReadBack(repo: string, intent: string, changedFrom: Option<string>, changed: seq<string>, repair: bool)
    requires changed != []
    ensures AllReadBack(BuildNextCommands(repo, intent, changedFrom, changed, repair),
                        IntendedCommands(repo, intent, changedFrom, changed, repair))
  {
    PackReadsBack(repo, intent, changed);
    ProveReadsBack(repo, changed);
    WitnessReadsBack(repo, changed);
    KickoffReadsBack(repo, intent, changedFrom, changed);
    RepairReadsBack(repo);
    var args := BuildChangedArgs(changed);
    var c0 := Template(PackHead(repo, intent), args, PackTail());
    var c1 := Template(Tool("prove") + [Quoted(repo)], args, ProveTail());
    var c2 := Template(Tool("witness") + [Quoted(repo)], args, WitnessTail());
    var c3 := Template(KickoffHead(repo, intent), KickoffArgs(changedFrom, changed), KickoffTail());
    var w0, w1 := PackWords(repo, intent, changed), ProveWords(repo, changed);
    var w2, w3 := WitnessWords(repo, changed), KickoffWords(repo, intent, changedFrom, changed);
    ReadBackFour(c0, w0, c1, w1, c2, w2, c3, w3);
    ReadBackOne(Line(RepairPieces(repo)), RepairWords(repo));
    var more := if repair then [Line(RepairPieces(repo))] else [];
    var moreWords := if repair then [RepairWords(repo)] else [];
    ReadBackConcat([c0, c1, c2, c3], [w0, w1, w2, w3], more, moreWords);
  }

  /** Without changed paths the printed commands are templates, which the shell does not read as words. */
  lemma TemplatesDoNotReadBack(repo: string, intent: string, changedFrom: Option<string>, repair: bool)
    ensures forall command | command in BuildNextCommands(repo, intent, changedFrom, [], repair) :: Words(command).None?
  {
    HeadsValid(repo, intent);
    PlaceholderDoesNotReadBack(KickoffHead(repo, intent), KickoffTail());
    PlaceholderDoesNotReadBack(PackHead(repo, intent), PackTail());
  }
}
