/** The README badge writer: in-place replacement of a marked block, or insertion under the title. */
module Badge {
  import opened Wrappers
  import opened Text

  predicate NoBreak(s: string) {
    forall i | 0 <= i < |s| :: s[i] != '\n' && s[i] != '\r'
  }

  /** The pair of comments that enclose the block. */
  datatype Markers = Markers(start: string, end: string) {
    predicate Valid() {
      start != "" && NoBreak(start) && end != "" && NoBreak(end)
    }
  }

  datatype Error = UnterminatedBlock

  // ---- line endings -------------------------------------------------------

  /** `replace("\r\n", "\n")` */
  function ToLf(s: string): string {
    if s == "" then ""
    else if |s| >= 2 && s[0] == '\r' && s[1] == '\n' then "\n" + ToLf(s[2..])
    else [s[0]] + ToLf(s[1..])
  }

  /** `replace('\n', "\r\n")` */
  function ToCrLf(s: string): string {
    if s == "" then "" else (if s[0] == '\n' then "\r\n" else [s[0]]) + ToCrLf(s[1..])
  }

  /** The line endings a document is written back with. */
  function Restore(crlf: bool, text: string): string {
    if crlf then ToCrLf(text) else text
  }

  predicate HasCrLf(s: string) {
    Contains(s, "\r\n")
  }

  ghost predicate CrLfAt(s: string, i: nat) {
    i + 1 < |s| && s[i] == '\r' && s[i + 1] == '\n'
  }

  lemma HasCrLfIff(s: string)
    ensures HasCrLf(s) <==> exists i: nat :: CrLfAt(s, i)
  {
    forall i: nat ensures CrLfAt(s, i) <==> OccursAt(s, "\r\n", i) {
      OccursIff(s, "\r\n", i);
      assert "\r\n"[0] == '\r' && "\r\n"[1] == '\n';
    }
    ContainsIffOccurs(s, "\r\n");
  }

  /** Expanding every line feed and collapsing it again gives the text back, stray carriage returns included. */
  lemma {:induction false} LfRoundTrip(s: string)
    ensures ToLf(ToCrLf(s)) == s
  {
    if s != "" {
      LfRoundTrip(s[1..]);
      var rest := ToCrLf(s[1..]);
      if s[0] == '\n' {
        assert ToCrLf(s)[2..] == rest;
      } else {
        assert ToCrLf(s)[1..] == rest;
        assert rest != "" ==> rest[0] != '\n';
      }
    }
  }

  /** Without a CRLF pair, collapsing does nothing. */
  lemma {:induction false} ToLfIdentity(s: string)
    requires !HasCrLf(s)
    ensures ToLf(s) == s
  {
    HasCrLfIff(s);
    if s != "" {
      assert |s| >= 2 ==> !CrLfAt(s, 0);
      HasCrLfIff(s[1..]);
      forall i: nat ensures !CrLfAt(s[1..], i) {
        assert !CrLfAt(s, i + 1);
      }
      ToLfIdentity(s[1..]);
    }
  }

  lemma {:induction false} ToCrLfPairs(s: string, i: nat)
    requires i < |ToCrLf(s)| && ToCrLf(s)[i] == '\n'
    ensures i > 0 && ToCrLf(s)[i - 1] == '\r'
  {
    if s != "" {
      var head := if s[0] == '\n' then "\r\n" else [s[0]];
      if i >= |head| {
        ToCrLfPairs(s[1..], i - |head|);
      }
    }
  }

  lemma {:induction false} ToCrLfExpands(s: string, i: nat)
    requires i < |s| && s[i] == '\n'
    ensures HasCrLf(ToCrLf(s))
  {
    var head := if s[0] == '\n' then "\r\n" else [s[0]];
    HasCrLfIff(ToCrLf(s));
    if i == 0 {
      assert CrLfAt(ToCrLf(s), 0);
    } else {
      ToCrLfExpands(s[1..], i - 1);
      HasCrLfIff(ToCrLf(s[1..]));
      var k: nat :| CrLfAt(ToCrLf(s[1..]), k);
      assert CrLfAt(ToCrLf(s), k + |head|);
    }
  }

  lemma NoCrLfConcat(a: string, b: string)
    requires !HasCrLf(a) && !HasCrLf(b)
    requires a == "" || b == "" || a[|a| - 1] != '\r' || b[0] != '\n'
    ensures !HasCrLf(a + b)
  {
    HasCrLfIff(a);
    HasCrLfIff(b);
    HasCrLfIff(a + b);
    forall i: nat ensures !CrLfAt(a + b, i) {
      assert !CrLfAt(a, i);
      if i >= |a| {
        assert !CrLfAt(b, i - |a|);
      }
    }
  }

  lemma NoCrLfSlice(s: string, lo: nat, hi: nat)
    requires !HasCrLf(s) && lo <= hi <= |s|
    ensures !HasCrLf(s[lo..hi])
  {
    HasCrLfIff(s);
    HasCrLfIff(s[lo..hi]);
    forall i: nat ensures !CrLfAt(s[lo..hi], i) {
      assert !CrLfAt(s, lo + i);
    }
  }

  // ---- trimming -----------------------------------------------------------

  /** The index after the run of line feeds at `from`. */
  function LfRun(s: string, from: nat): (to: nat)
    requires from <= |s|
    ensures from <= to <= |s|
    ensures forall i | from <= i < to :: s[i] == '\n'
    ensures to < |s| ==> s[to] != '\n'
    decreases |s| - from
  {
    if from < |s| && s[from] == '\n' then LfRun(s, from + 1) else from
  }

  /** The index where the run of line feeds before `to` starts. */
  function LfRunBefore(s: string, to: nat): (from: nat)
    requires to <= |s|
    ensures from <= to
    ensures from > 0 ==> s[from - 1] != '\n'
    ensures forall i | from <= i < to :: s[i] == '\n'
  {
    if to > 0 && s[to - 1] == '\n' then LfRunBefore(s, to - 1) else to
  }

  /** `trim_start_matches('\n')` */
  function TrimStartLf(s: string): string {
    s[LfRun(s, 0)..]
  }

  /** `trim_end_matches('\n')` */
  function TrimEndLf(s: string): string {
    s[..LfRunBefore(s, |s|)]
  }

  function Trim(s: string): string {
    if s == "" then ""
    else if IsWhitespace(s[0]) then Trim(s[1..])
    else if IsWhitespace(s[|s| - 1]) then Trim(s[..|s| - 1])
    else s
  }

  function LowerAscii(s: string): string {
    seq(|s|, i requires 0 <= i < |s| =>
      if 'A' <= s[i] <= 'Z' then ((s[i] as int) + 32) as char else s[i])
  }

  // ---- where a missing block goes -----------------------------------------

  /** `split_inclusive('\n')` */
  function Lines(s: string): (lines: seq<string>)
    ensures forall i | 0 <= i < |lines| :: lines[i] != ""
    ensures s != "" ==> lines != []
  {
    if s == "" then []
    else
      var rest := Lines(s[1..]);
      if s[0] == '\n' || rest == [] then [[s[0]]] + rest else rest[0 := [s[0]] + rest[0]]
  }

  function Concat(lines: seq<string>): string {
    if lines == [] then "" else lines[0] + Concat(lines[1..])
  }

  predicate TitleLine(line: string) {
    "# " <= Trim(line)
  }

  predicate TopBadgeLine(line: string) {
    "[![" <= line || "![" <= line || Contains(line, "shields.io")
    || (Contains(line, "<img") && Contains(LowerAscii(line), "badge"))
    || "<p align=" <= line || line == "</p>"
  }

  predicate HeaderLine(line: string) {
    Trim(line) == "" || TopBadgeLine(Trim(line))
  }

  /** The number of lines in the leading run of blank or badge lines. */
  function HeaderRun(lines: seq<string>): (n: nat)
    ensures n <= |lines|
  {
    if lines != [] && HeaderLine(lines[0]) then 1 + HeaderRun(lines[1..]) else 0
  }

  lemma {:induction false} HeaderRunIsMaximal(lines: seq<string>)
    ensures var n := HeaderRun(lines);
            && (forall i | 0 <= i < n :: HeaderLine(lines[i]))
            && (n < |lines| ==> !HeaderLine(lines[n]))
  {
    if lines != [] && HeaderLine(lines[0]) {
      HeaderRunIsMaximal(lines[1..]);
      assert forall i | 1 <= i < |lines| :: lines[i] == lines[1..][i - 1];
    }
  }

  function HeaderLines(lines: seq<string>): (n: nat)
    ensures n <= |lines|
  {
    if lines == [] || !TitleLine(lines[0]) then 0 else 1 + HeaderRun(lines[1..])
  }

  function InsertIndex(text: string): (at: nat)
    ensures at <= |text|
  {
    var lines := Lines(text);
    ConcatLines(text);
    ConcatPrefix(lines, HeaderLines(lines));
    |Concat(lines[..HeaderLines(lines)])|
  }

  lemma {:induction false} ConcatLines(s: string)
    ensures Concat(Lines(s)) == s
  {
    if s != "" {
      ConcatLines(s[1..]);
      var rest := Lines(s[1..]);
      if s[0] != '\n' && rest != [] {
        assert Lines(s)[1..] == rest[1..];
      } else {
        assert ([[s[0]]] + rest)[1..] == rest;
      }
    }
  }

  lemma {:induction false} ConcatPrefix(lines: seq<string>, k: nat)
    requires k <= |lines|
    ensures Concat(lines) == Concat(lines[..k]) + Concat(lines[k..])
  {
    if k > 0 {
      ConcatPrefix(lines[1..], k - 1);
      assert lines[..k][1..] == lines[1..][..k - 1];
      assert lines[1..][k - 1..] == lines[k..];
    }
  }

  lemma {:induction false} ConcatSnoc(lines: seq<string>, k: nat)
    requires k < |lines|
    ensures Concat(lines[..k + 1]) == Concat(lines[..k]) + lines[k]
  {
    if k > 0 {
      ConcatSnoc(lines[1..], k - 1);
      assert lines[..k + 1][1..] == lines[1..][..k];
      assert lines[..k][1..] == lines[1..][..k - 1];
    } else {
      assert lines[..1] == [lines[0]];
    }
  }

  /** A cut between two lines falls right after a line feed. */
  lemma {:induction false} LineBoundary(s: string, k: nat)
    requires 0 < k < |Lines(s)|
    ensures var cut := Concat(Lines(s)[..k]);
            cut != "" && cut[|cut| - 1] == '\n'
  {
    var lines := Lines(s);
    var rest := Lines(s[1..]);
    if s[0] == '\n' || rest == [] {
      if k == 1 {
        assert lines[..1] == [[s[0]]];
      } else {
        LineBoundary(s[1..], k - 1);
        assert lines[..k][1..] == rest[..k - 1];
      }
    } else {
      LineBoundary(s[1..], k);
      assert lines[..k][1..] == rest[..k][1..];
    }
  }

  /** The lines above the insertion point are a title and blank or badge lines, as many as there are. */
  lemma HeaderLinesAreMaximal(lines: seq<string>)
    ensures var k := HeaderLines(lines);
            && (k > 0 <==> lines != [] && TitleLine(lines[0]))
            && (forall i | 1 <= i < k :: HeaderLine(lines[i]))
            && (0 < k < |lines| ==> !HeaderLine(lines[k]))
  {
    if HeaderLines(lines) > 0 {
      var rest := lines[1..];
      HeaderRunIsMaximal(rest);
      assert forall i | 1 <= i < |lines| :: lines[i] == rest[i - 1];
    }
  }

  /** The insertion point cuts below those lines: at the start of the text, at its end or after a line feed. */
  lemma InsertIndexCutsLines(text: string)
    ensures var at, k := InsertIndex(text), HeaderLines(Lines(text));
            && text[..at] == Concat(Lines(text)[..k]) && text[at..] == Concat(Lines(text)[k..])
            && (at == 0 || at == |text| || text[at - 1] == '\n')
  {
    var lines := Lines(text);
    var k := HeaderLines(lines);
    ConcatLines(text);
    ConcatPrefix(lines, k);
    if 0 < k < |lines| {
      LineBoundary(text, k);
    }
    if k == |lines| {
      assert lines[..k] == lines;
    }
  }

  method ReadmeInsertIndex(text: string) returns (at: nat)
    ensures at == InsertIndex(text)
  {
    var lines := Lines(text);
    var index, sawTitle := 0, false;
    var i := 0;
    while i < |lines|
      invariant i <= |lines| && index == |Concat(lines[..i])|
      invariant sawTitle <==> i > 0
      invariant sawTitle <==> index > 0
      invariant if sawTitle then HeaderLines(lines) == i + HeaderRun(lines[i..]) else i == 0
      decreases |lines| - i
    {
      var line := lines[i];
      ConcatSnoc(lines, i);
      if index == 0 && TitleLine(line) {
        index := index + |line|;
        sawTitle := true;
      } else if sawTitle && HeaderLine(line) {
        assert lines[i..][1..] == lines[i + 1..];
        index := index + |line|;
      } else {
        break;
      }
      i := i + 1;
    }
    at := if sawTitle then index else 0;
  }

  // ---- the rewrite --------------------------------------------------------

  /** What a rewrite keeps: the text above the block, seam included, and the text below it. */
  datatype Frame = Frame(above: string, below: string)

  /** The parts of an LF document: the text above the block, the block (maybe empty) and the rest. */
  datatype Parts = Parts(kept: string, replaced: string, rest: string, found: bool)

  /** `at` is where the block goes when the text holds none yet. */
  function PartsOf(m: Markers, text: string, at: nat): Result<Parts, Error>
    requires at <= |text|
  {
    match Find(text, m.start)
    case Some(start) =>
      var afterStart := start + |m.start|;
      (match FindFrom(text, m.end, afterStart)
       case None => Err(UnterminatedBlock)
       case Some(endStart) =>
         var end := endStart + |m.end|;
         Ok(Parts(text[..start], text[start..end], text[end..], true)))
    case None => Ok(Parts(text[..at], "", text[at..], false))
  }

  ghost predicate OnlyLf(s: string) {
    forall i | 0 <= i < |s| :: s[i] == '\n'
  }

  /** The line feeds that end the kept line, or make a blank line under the header. */
  function Pad(kept: string, found: bool): (pad: string)
    ensures OnlyLf(pad)
    ensures kept != "" && kept[|kept| - 1] != '\n' ==> pad != ""
    ensures kept == "" ==> pad == ""
  {
    if kept == "" then ""
    else if kept[|kept| - 1] != '\n' then (if found then "\n" else "\n\n")
    else if found || (|kept| >= 2 && kept[|kept| - 2] == '\n') then ""
    else "\n"
  }

  function FrameOf(p: Parts): Frame {
    Frame(p.kept + Pad(p.kept, p.found), TrimStartLf(p.rest))
  }

  function Below(below: string): string {
    if below == "" then "" else "\n" + below
  }

  function Assemble(frame: Frame, block: string): string {
    frame.above + TrimEndLf(block) + "\n" + Below(frame.below)
  }

  /** The rewrite of a document whose line endings are LF. */
  function UpsertLf(m: Markers, text: string, at: nat, block: string): Result<string, Error>
    requires at <= |text|
  {
    match PartsOf(m, text, at)
    case Err(e) => Err(e)
    case Ok(parts) => Ok(Assemble(FrameOf(parts), block))
  }

  function Upsert(m: Markers, existing: string, block: string): Result<string, Error> {
    var text := ToLf(existing);
    match UpsertLf(m, text, InsertIndex(text), block)
    case Err(e) => Err(e)
    case Ok(text) => Ok(Restore(HasCrLf(existing), text))
  }

  lemma MarkedParts(m: Markers, text: string, at: nat, start: nat, endStart: nat)
    requires at <= |text| && Find(text, m.start) == Some(start)
    requires FindFrom(text, m.end, start + |m.start|) == Some(endStart)
    ensures var end := endStart + |m.end|;
            PartsOf(m, text, at) == Ok(Parts(text[..start], text[start..end], text[end..], true))
  {
  }

  lemma PadAsPushed(kept: string)
    ensures kept + Pad(kept, true) == if kept != "" && kept[|kept| - 1] != '\n' then kept + "\n" else kept
    ensures kept + Pad(kept, false)
         == if kept == "" || (|kept| >= 2 && kept[|kept| - 2..] == "\n\n") then kept
            else if kept[|kept| - 1] == '\n' then kept + "\n"
            else kept + "\n\n"
  {
  }

  lemma AssembleAsPushed(above: string, block: string, below: string)
    ensures Assemble(Frame(above, below), block)
         == if below == "" then above + TrimEndLf(block) + "\n"
            else above + TrimEndLf(block) + "\n" + "\n" + below
  {
  }

  lemma UpsertMarked(m: Markers, text: string, at: nat, start: nat, endStart: nat, p: Parts, b: string)
    requires at <= |text| && Find(text, m.start) == Some(start)
    requires FindFrom(text, m.end, start + |m.start|) == Some(endStart)
    requires var end := endStart + |m.end|; p == Parts(text[..start], text[start..end], text[end..], true)
    ensures UpsertLf(m, text, at, b) == Ok(Assemble(FrameOf(p), b))
  {
    MarkedParts(m, text, at, start, endStart);
  }

  lemma UpsertUnmarked(m: Markers, text: string, at: nat, b: string)
    requires at <= |text| && Find(text, m.start).None?
    ensures UpsertLf(m, text, at, b) == Ok(Assemble(FrameOf(Parts(text[..at], "", text[at..], false)), b))
  {
  }

  lemma UpsertUnterminated(m: Markers, text: string, at: nat, start: nat, b: string)
    requires at <= |text| && Find(text, m.start) == Some(start)
    requires FindFrom(text, m.end, start + |m.start|).None?
    ensures UpsertLf(m, text, at, b) == Err(UnterminatedBlock)
  {
  }

  method UpsertAtMarker(m: Markers, normalized: string, start: nat, ghost at: nat, block: string)
    returns (r: Result<string, Error>)
    requires at <= |normalized| && Find(normalized, m.start) == Some(start)
    ensures r == UpsertLf(m, normalized, at, block)
  {
    var afterStart := start + |m.start|;
    var endStart := FindFrom(normalized, m.end, afterStart);
    if endStart.None? {
      UpsertUnterminated(m, normalized, at, start, block);
      return Err(UnterminatedBlock);
    }
    var end := endStart.value + |m.end|;
    ghost var parts := Parts(normalized[..start], normalized[start..end], normalized[end..], true);
    UpsertMarked(m, normalized, at, start, endStart.value, parts, block);
    var out := ReplaceBlock(normalized[..start], normalized[end..], parts, block);
    r := Ok(out);
  }

  method UpsertAtHeader(m: Markers, normalized: string, at: nat, block: string) returns (r: Result<string, Error>)
    requires at <= |normalized| && Find(normalized, m.start).None?
    ensures r == UpsertLf(m, normalized, at, block)
  {
    UpsertUnmarked(m, normalized, at, block);
    var out := InsertBlock(normalized[..at], normalized[at..], block);
    r := Ok(out);
  }

  method ReplaceBlock(before: string, rest: string, ghost parts: Parts, block: string) returns (out: string)
    requires parts.kept == before && parts.rest == rest && parts.found
    ensures out == Assemble(FrameOf(parts), block)
  {
    var after := TrimStartLf(rest);
    out := before;
    PadAsPushed(before);
    if out != "" && out[|out| - 1] != '\n' {
      out := out + "\n";
    }
    AssembleAsPushed(out, block, after);
    out := out + TrimEndLf(block);
    out := out + "\n";
    if after != "" {
      out := out + "\n";
      out := out + after;
    }
  }

  method InsertBlock(before: string, rest: string, block: string) returns (out: string)
    ensures out == Assemble(FrameOf(Parts(before, "", rest, false)), block)
  {
    var after := TrimStartLf(rest);
    out := before;
    PadAsPushed(before);
    if out != "" && !(|out| >= 2 && out[|out| - 2..] == "\n\n") {
      if out[|out| - 1] == '\n' {
        out := out + "\n";
      } else {
        out := out + "\n\n";
      }
    }
    AssembleAsPushed(out, block, after);
    out := out + TrimEndLf(block);
    out := out + "\n";
    if after != "" {
      out := out + "\n";
      out := out + after;
    }
  }

  method UpsertBadgeBlock(m: Markers, existing: string, block: string) returns (r: Result<string, Error>)
    ensures r == Upsert(m, existing, block)
  {
    var crlf := Contains(existing, "\r\n");
    var normalized := ToLf(existing);
    var updated;
    var found := Find(normalized, m.start);
    if found.Some? {
      updated := UpsertAtMarker(m, normalized, found.value, InsertIndex(normalized), block);
    } else {
      var at := ReadmeInsertIndex(normalized);
      updated := UpsertAtHeader(m, normalized, at, block);
    }
    if updated.Err? {
      return updated;
    }
    r := Ok(if crlf then ToCrLf(updated.value) else updated.value);
  }

  // ---- last write wins ----------------------------------------------------

  /** A block that opens with the start marker and closes with the first end marker after it. */
  predicate WellFormedBlock(m: Markers, block: string) {
    var b := TrimEndLf(block);
    && m.start <= b && |b| >= |m.start| + |m.end|
    && FindFrom(b, m.end, |m.start|) == Some(|b| - |m.end|)
  }

  /** Where a block starts and where it ends, there is no line break. */
  predicate Edged(b: string) {
    var block := TrimEndLf(b);
    && block != "" && block[0] != '\n' && block[0] != '\r'
    && block[|block| - 1] != '\n' && block[|block| - 1] != '\r'
  }

  lemma BlockEdges(m: Markers, b: string)
    requires m.Valid() && WellFormedBlock(m, b)
    ensures Edged(b)
  {
    var block := TrimEndLf(b);
    var at := |block| - |m.end|;
    OccursIff(block, m.end, at);
    assert m.end[|m.end| - 1] == block[at + |m.end| - 1];
    assert block[0] == m.start[0];
  }

  /** An occurrence that starts before a line feed, of a pattern without one, ends before it. */
  lemma OccurrenceBeforeLf(s: string, pat: string, i: nat, lf: nat)
    requires NoBreak(pat) && i <= lf < |s| && s[lf] == '\n'
    requires OccursAt(s, pat, i)
    ensures i + |pat| <= lf
  {
    OccursIff(s, pat, i);
    assert forall k | i <= k < i + |pat| :: s[k] == pat[k - i];
  }

  /** Occurrences inside the middle of a text are those of the middle on its own. */
  lemma OccurrenceInside(a: string, s: string, c: string, pat: string, i: nat)
    requires i + |pat| <= |s|
    ensures OccursAt(a + s + c, pat, |a| + i) <==> OccursAt(s, pat, i)
  {
    var text := a + s + c;
    OccursIff(text, pat, |a| + i);
    OccursIff(s, pat, i);
    assert forall k | 0 <= k < |s| :: text[|a| + k] == s[k];
    assert forall k | 0 <= k < |pat| :: pat[k] == s[i + k] <==> pat[k] == text[|a| + i + k];
  }

  lemma OccurrenceInPrefix(s: string, c: string, pat: string, i: nat)
    requires i + |pat| <= |s|
    ensures OccursAt(s + c, pat, i) <==> OccursAt(s, pat, i)
  {
    OccurrenceInside("", s, c, pat, i);
    assert "" + s + c == s + c;
  }

  ghost predicate Absent(s: string, pat: string) {
    forall i: nat :: !OccursAt(s, pat, i)
  }

  ghost predicate GoodFrame(m: Markers, f: Frame) {
    && (f.above == "" || f.above[|f.above| - 1] == '\n')
    && Absent(f.above, m.start)
    && (f.below == "" || f.below[0] != '\n')
  }

  lemma KeptHasNoMarker(m: Markers, text: string, at: nat)
    requires at <= |text| && PartsOf(m, text, at).Ok? && m.start != ""
    ensures Absent(PartsOf(m, text, at).value.kept, m.start)
  {
    var kept := PartsOf(m, text, at).value.kept;
    assert text == kept + text[|kept|..];
    forall i: nat ensures !OccursAt(kept, m.start, i) {
      if OccursAt(kept, m.start, i) {
        OccurrenceInPrefix(kept, text[|kept|..], m.start, i);
      }
    }
  }

  lemma PaddingAddsNoMarker(kept: string, pad: string, pat: string)
    requires Absent(kept, pat) && OnlyLf(pad) && pat != "" && NoBreak(pat)
    ensures Absent(kept + pad, pat)
  {
    var s := kept + pad;
    forall i: nat ensures !OccursAt(s, pat, i) {
      if OccursAt(s, pat, i) {
        if |kept| < i + |pat| {
          OccurrenceBeforeLf(s, pat, i, i + |pat| - 1);
        } else {
          OccurrenceInPrefix(kept, pad, pat, i);
        }
      }
    }
  }

  /** Rewriting puts the block under text that holds no marker and ends at a line boundary. */
  lemma FrameIsGood(m: Markers, parts: Parts)
    requires m.Valid() && Absent(parts.kept, m.start)
    ensures GoodFrame(m, FrameOf(parts))
  {
    var f := FrameOf(parts);
    var pad := Pad(parts.kept, parts.found);
    PaddingAddsNoMarker(parts.kept, pad, m.start);
  }

  lemma FirstOccurrence(s: string, pat: string, from: nat, at: nat)
    requires from <= at && OccursAt(s, pat, at) && forall i | from <= i < at :: !OccursAt(s, pat, i)
    ensures FindFrom(s, pat, from) == Some(at)
  {
  }

  /** The start marker of the block just written is the first one in the document. */
  lemma StartOfAssembled(m: Markers, f: Frame, b: string)
    requires m.Valid() && GoodFrame(m, f) && m.start <= TrimEndLf(b)
    ensures Find(Assemble(f, b), m.start) == Some(|f.above|)
  {
    var onward := TrimEndLf(b) + "\n" + Below(f.below);
    assert Assemble(f, b) == f.above + onward;
    FindAtSeam(f.above, onward, m.start);
  }

  lemma FindAtSeam(above: string, onward: string, pat: string)
    requires above == "" || above[|above| - 1] == '\n'
    requires Absent(above, pat) && NoBreak(pat) && pat <= onward
    ensures Find(above + onward, pat) == Some(|above|)
  {
    var text := above + onward;
    OccursIff(text, pat, |above|);
    forall i: nat | i < |above| ensures !OccursAt(text, pat, i) {
      if OccursAt(text, pat, i) {
        OccurrenceBeforeLf(text, pat, i, |above| - 1);
        OccurrenceInPrefix(above, onward, pat, i);
      }
    }
    FirstOccurrence(text, pat, 0, |above|);
  }

  /** A pattern that first occurs at the end of the middle part still does so in the whole. */
  lemma FindInMiddle(a: string, s: string, c: string, pat: string, from: nat, text: string)
    requires |pat| <= |s| && from <= |s| && FindFrom(s, pat, from) == Some(|s| - |pat|)
    requires text == a + s + c
    ensures FindFrom(text, pat, |a| + from) == Some(|a| + |s| - |pat|)
  {
    forall i: nat | |a| + from <= i <= |a| + |s| - |pat|
      ensures OccursAt(text, pat, i) <==> OccursAt(s, pat, i - |a|)
    {
      OccurrenceInside(a, s, c, pat, i - |a|);
    }
    FirstOccurrence(text, pat, |a| + from, |a| + |s| - |pat|);
  }

  lemma TrimSeam(below: string)
    requires below == "" || below[0] != '\n'
    ensures TrimStartLf("\n" + Below(below)) == below
  {
    var tail := "\n" + Below(below);
    assert tail[1..] == Below(below);
    if below != "" {
      assert Below(below)[1..] == below;
      assert TrimStartLf(below) == below;
    }
  }

  lemma FrameOfMarked(m: Markers, text: string, at: nat, f: Frame, endStart: nat, tail: string)
    requires at <= |text| && Find(text, m.start) == Some(|f.above|)
    requires FindFrom(text, m.end, |f.above| + |m.start|) == Some(endStart)
    requires text[..|f.above|] == f.above && text[endStart + |m.end|..] == tail
    requires f.above == "" || f.above[|f.above| - 1] == '\n'
    requires TrimStartLf(tail) == f.below
    ensures var parts := PartsOf(m, text, at);
            parts.Ok? && FrameOf(parts.value) == f
  {
    MarkedParts(m, text, at, |f.above|, endStart);
    FrameOfSeam(f, text[|f.above|..endStart + |m.end|], tail);
  }

  lemma FrameOfSeam(f: Frame, replaced: string, tail: string)
    requires f.above == "" || f.above[|f.above| - 1] == '\n'
    requires TrimStartLf(tail) == f.below
    ensures FrameOf(Parts(f.above, replaced, tail, true)) == f
  {
  }

  lemma AssembledText(f: Frame, b: string)
    ensures Assemble(f, b) == f.above + TrimEndLf(b) + ("\n" + Below(f.below))
  {
  }

  lemma ConcatSlices(a: string, b: string, c: string, text: string)
    requires text == a + b + c
    ensures text[..|a|] == a && text[|a| + |b|..] == c
  {
  }

  lemma EndOfAssembled(m: Markers, f: Frame, b: string, tail: string, text: string)
    requires WellFormedBlock(m, b) && text == f.above + TrimEndLf(b) + tail
    ensures FindFrom(text, m.end, |f.above| + |m.start|) == Some(|f.above| + |TrimEndLf(b)| - |m.end|)
  {
    FindInMiddle(f.above, TrimEndLf(b), tail, m.end, |m.start|, text);
  }

  lemma FrameOfConcat(m: Markers, f: Frame, b: string, tail: string, text: string, at: nat)
    requires WellFormedBlock(m, b) && text == f.above + TrimEndLf(b) + tail && at <= |text|
    requires Find(text, m.start) == Some(|f.above|) && TrimStartLf(tail) == f.below
    requires f.above == "" || f.above[|f.above| - 1] == '\n'
    ensures var parts := PartsOf(m, text, at);
            parts.Ok? && FrameOf(parts.value) == f
  {
    EndOfAssembled(m, f, b, tail, text);
    ConcatSlices(f.above, TrimEndLf(b), tail, text);
    FrameOfMarked(m, text, at, f, |f.above| + |TrimEndLf(b)| - |m.end|, tail);
  }

  /** The block just written is the block the next rewrite finds, with the same frame around it. */
  lemma FrameOfAssembled(m: Markers, f: Frame, b: string, at: nat)
    requires m.Valid() && GoodFrame(m, f) && WellFormedBlock(m, b) && at <= |Assemble(f, b)|
    ensures var parts := PartsOf(m, Assemble(f, b), at);
            parts.Ok? && FrameOf(parts.value) == f
  {
    StartOfAssembled(m, f, b);
    AssembledText(f, b);
    TrimSeam(f.below);
    FrameOfConcat(m, f, b, "\n" + Below(f.below), Assemble(f, b), at);
  }

  /** On LF text a second rewrite replaces the first one exactly. */
  lemma LastWriteWinsLf(m: Markers, text: string, at: nat, b1: string, b2: string)
    requires m.Valid() && WellFormedBlock(m, b1) && at <= |text| && UpsertLf(m, text, at, b1).Ok?
    ensures var first := UpsertLf(m, text, at, b1).value;
            forall k: nat | k <= |first| :: UpsertLf(m, first, k, b2) == UpsertLf(m, text, at, b2)
  {
    var f := FrameOf(PartsOf(m, text, at).value);
    KeptHasNoMarker(m, text, at);
    FrameIsGood(m, PartsOf(m, text, at).value);
    forall k: nat | k <= |Assemble(f, b1)| ensures UpsertLf(m, Assemble(f, b1), k, b2) == Ok(Assemble(f, b2)) {
      FrameOfAssembled(m, f, b1, k);
    }
  }

  function KeptOf(m: Markers, existing: string): Result<string, Error> {
    var text := ToLf(existing);
    match PartsOf(m, text, InsertIndex(text))
    case Err(e) => Err(e)
    case Ok(parts) => Ok(parts.kept)
  }

  /**
   * The text has CRLF line endings, or neither a carriage return at the end of what is kept above the
   * block nor the first block itself will make it look as if it had.
   */
  predicate SeamSafe(crlf: bool, kept: string, first: string) {
    crlf || (!(kept != "" && kept[|kept| - 1] == '\r') && !HasCrLf(TrimEndLf(first)))
  }

  lemma CrLfInside(a: string, b: string, c: string)
    requires HasCrLf(b)
    ensures HasCrLf(a + b + c)
  {
    HasCrLfIff(b);
    var k: nat :| CrLfAt(b, k);
    assert CrLfAt(a + b + c, |a| + k);
    HasCrLfIff(a + b + c);
  }

  /** Joining the pieces of a rewrite makes no CRLF pair other than at a carriage return above the block. */
  lemma AssembledHasNoCrLf(kept: string, pad: string, block: string, below: string)
    requires !HasCrLf(kept) && !HasCrLf(block) && !HasCrLf(below) && OnlyLf(pad)
    requires kept == "" || kept[|kept| - 1] != '\r'
    requires block != "" && block[|block| - 1] != '\r' && block[0] != '\n'
    ensures !HasCrLf(kept + pad + block + "\n" + Below(below))
  {
    HasCrLfIff(pad);
    NoCrLfConcat(kept, pad);
    NoCrLfConcat(kept + pad, block);
    HasCrLfIff("\n");
    NoCrLfConcat(kept + pad + block, "\n");
    HasCrLfIff("");
    NoCrLfConcat("\n", below);
    NoCrLfConcat(kept + pad + block + "\n", Below(below));
  }

  /** Rewritten text without CRLF pairs gets one exactly when the seam is not safe. */
  lemma SeamCrLf(kept: string, pad: string, rest: string, text: string)
    requires kept != "" && kept[|kept| - 1] == '\r' && OnlyLf(pad) && pad != "" && text == kept + pad + rest
    ensures HasCrLf(text)
  {
    assert CrLfAt(text, |kept| - 1);
    HasCrLfIff(text);
  }

  lemma AssembledCrLf(parts: Parts, b: string)
    requires Edged(b) && !HasCrLf(parts.kept) && !HasCrLf(parts.rest)
    ensures HasCrLf(Assemble(FrameOf(parts), b)) <==> !SeamSafe(false, parts.kept, b)
  {
    var f := FrameOf(parts);
    var kept := parts.kept;
    var pad := Pad(kept, parts.found);
    var block := TrimEndLf(b);
    var text := Assemble(f, b);
    if kept != "" && kept[|kept| - 1] == '\r' {
      var onward := block + "\n" + Below(f.below);
      assert text == kept + pad + onward;
      SeamCrLf(kept, pad, onward, text);
    } else if HasCrLf(block) {
      CrLfInside(f.above, block, "\n" + Below(f.below));
      assert text == f.above + block + ("\n" + Below(f.below));
    } else {
      NoCrLfSlice(parts.rest, |parts.rest| - |f.below|, |parts.rest|);
      assert parts.rest[|parts.rest| - |f.below|..|parts.rest|] == f.below;
      AssembledHasNoCrLf(kept, pad, block, f.below);
    }
  }

  lemma PartsHaveNoCrLf(m: Markers, text: string, at: nat)
    requires at <= |text| && PartsOf(m, text, at).Ok? && !HasCrLf(text)
    ensures var parts := PartsOf(m, text, at).value; !HasCrLf(parts.kept) && !HasCrLf(parts.rest)
  {
    var parts := PartsOf(m, text, at).value;
    NoCrLfSlice(text, 0, |parts.kept|);
    assert text[0..|parts.kept|] == parts.kept;
    NoCrLfSlice(text, |text| - |parts.rest|, |text|);
    assert text[|text| - |parts.rest|..|text|] == parts.rest;
  }

  /** The rewritten LF text has a line feed right after the block, whose last character is no carriage return. */
  lemma AssembledIsNotCrLf(f: Frame, b: string, x: string)
    requires Edged(b)
    ensures Assemble(f, b) != ToCrLf(x)
  {
    var at := |f.above + TrimEndLf(b)|;
    assert Assemble(f, b)[at] == '\n';
    if Assemble(f, b) == ToCrLf(x) {
      ToCrLfPairs(x, at);
    }
  }

  lemma AssembledExpands(f: Frame, b: string)
    ensures HasCrLf(ToCrLf(Assemble(f, b)))
  {
    var at := |f.above + TrimEndLf(b)|;
    assert Assemble(f, b)[at] == '\n';
    ToCrLfExpands(Assemble(f, b), at);
  }

  /** The heart of the matter, for any two insertion points. */
  lemma LastWriteWinsAt(m: Markers, text: string, crlf: bool, at: nat, b1: string, b2: string, at2: nat)
    requires m.Valid() && WellFormedBlock(m, b1) && Edged(b2)
    requires at <= |text| && UpsertLf(m, text, at, b1).Ok? && (!crlf ==> !HasCrLf(text))
    requires at2 <= |ToLf(Restore(crlf, UpsertLf(m, text, at, b1).value))|
    ensures var written := Restore(crlf, UpsertLf(m, text, at, b1).value);
            var again := UpsertLf(m, ToLf(written), at2, b2);
            (again.Ok? && Restore(HasCrLf(written), again.value) == Restore(crlf, UpsertLf(m, text, at, b2).value))
            <==> SeamSafe(crlf, PartsOf(m, text, at).value.kept, b1)
  {
    var parts := PartsOf(m, text, at).value;
    var f := FrameOf(parts);
    var first := Assemble(f, b1);
    LastWriteWinsLf(m, text, at, b1, b2);
    if crlf {
      AssembledExpands(f, b1);
      LfRoundTrip(first);
    } else {
      PartsHaveNoCrLf(m, text, at);
      BlockEdges(m, b1);
      AssembledCrLf(parts, b1);
      if SeamSafe(crlf, parts.kept, b1) {
        ToLfIdentity(first);
      } else {
        var again := UpsertLf(m, ToLf(first), at2, b2);
        if again.Ok? {
          AssembledIsNotCrLf(f, b2, again.value);
        }
      }
    }
  }

  /**
   * Writing one block and then another leaves what writing the second alone would have left, exactly
   * when the seam is safe.
   */
  lemma LastWriteWins(m: Markers, existing: string, b1: string, b2: string)
    requires m.Valid() && WellFormedBlock(m, b1) && Edged(b2)
    requires Upsert(m, existing, b1).Ok?
    ensures Upsert(m, Upsert(m, existing, b1).value, b2) == Upsert(m, existing, b2)
       <==> SeamSafe(HasCrLf(existing), KeptOf(m, existing).value, b1)
  {
    var text, crlf := ToLf(existing), HasCrLf(existing);
    if !crlf {
      ToLfIdentity(existing);
    }
    var written := Upsert(m, existing, b1).value;
    LastWriteWinsAt(m, text, crlf, InsertIndex(text), b1, b2, InsertIndex(ToLf(written)));
  }

  /** The check that follows an update finds no drift exactly when the seam was safe. */
  lemma CheckAfterUpdate(m: Markers, existing: string, b: string)
    requires m.Valid() && WellFormedBlock(m, b) && Upsert(m, existing, b).Ok?
    ensures var written := Upsert(m, existing, b).value;
            Upsert(m, written, b) == Ok(written) <==> SeamSafe(HasCrLf(existing), KeptOf(m, existing).value, b)
  {
    BlockEdges(m, b);
    LastWriteWins(m, existing, b, b);
  }

  lemma KeptIsPrefix(m: Markers, existing: string)
    requires KeptOf(m, existing).Ok? && !HasCrLf(existing)
    ensures KeptOf(m, existing).value <= existing
  {
    ToLfIdentity(existing);
  }

  /** Text whose every carriage return starts a CRLF pair, and blocks without any, are always safe. */
  lemma CleanTextIsSafe(m: Markers, existing: string, b: string)
    requires KeptOf(m, existing).Ok?
    requires forall i | 0 <= i < |b| :: b[i] != '\r'
    requires forall i | 0 <= i < |existing| && existing[i] == '\r' :: CrLfAt(existing, i)
    ensures SeamSafe(HasCrLf(existing), KeptOf(m, existing).value, b)
  {
    HasCrLfIff(existing);
    HasCrLfIff(TrimEndLf(b));
    if !HasCrLf(existing) {
      KeptIsPrefix(m, existing);
    }
  }

  /** A document that is a title ending in a lone carriage return drifts on the second rewrite. */
  lemma LoneCarriageReturnDrifts(m: Markers, b: string)
    requires m.Valid() && WellFormedBlock(m, b) && |m.start| > 4
    ensures var existing := "# T\r";
            Upsert(m, existing, b).Ok? && Upsert(m, Upsert(m, existing, b).value, b) != Upsert(m, existing, b)
  {
    var existing := "# T\r";
    HasCrLfIff(existing);
    ToLfIdentity(existing);
    TitleOnly(existing);
    assert Find(existing, m.start).None?;
    assert KeptOf(m, existing).value == existing;
    BlockEdges(m, b);
    LastWriteWins(m, existing, b, b);
  }

  lemma {:induction false} OneLine(s: string)
    requires s != "" && NoBreak(s[..|s| - 1]) && s[|s| - 1] != '\n'
    ensures Lines(s) == [s]
  {
    var rest := Lines(s[1..]);
    if |s| > 1 {
      assert NoBreak(s[1..][..|s| - 2]) by {
        assert forall i | 0 <= i < |s| - 2 :: s[1..][i] == s[..|s| - 1][i + 1];
      }
      OneLine(s[1..]);
      assert rest == [s[1..]];
      assert [s[0]] + s[1..] == s;
    } else {
      assert rest == [] && s == [s[0]];
    }
  }

  lemma TitleOnly(s: string)
    requires s == "# T\r"
    ensures InsertIndex(s) == |s|
  {
    OneLine(s);
    assert s[..3] == "# T" && Trim(s) == Trim(s[..3]) == "# T";
    assert "# " <= "# T";
    assert Lines(s)[..1] == [s];
    assert Concat([s]) == s + Concat([]);
  }
}
