/** The block the badge writer renders, between its own markers, written again and again. */
module BadgeRendered {
  import opened Wrappers
  import opened Text
  import opened Badge

  const BADGE := Markers("<!-- jankurai-badge:start -->", "<!-- jankurai-badge:end -->")

  lemma BadgeMarkersValid()
    ensures BADGE.Valid()
  {
    PlainMarker(BADGE.start);
    PlainMarker(BADGE.end);
  }

  lemma PlainMarker(marker: string)
    requires marker == BADGE.start || marker == BADGE.end
    ensures marker != "" && NoBreak(marker)
  {
  }

  function MarkedBlock(m: Markers, line: string): string {
    m.start + "\n" + line + "\n" + m.end + "\n"
  }

  function BadgeLine(alt: string, imagePath: string, linkPath: string): string {
    "[![" + alt + "](" + imagePath + ")](" + linkPath + ")"
  }

  function AltText(score: int): string {
    "Jankurai score: " + Integer(score) + "/100"
  }

  function RenderReadmeBlock(imagePath: string, linkPath: string, score: int): string {
    MarkedBlock(BADGE, BadgeLine(AltText(score), imagePath, linkPath))
  }

  lemma Spliced(open: string, b: string, c: string, n: string, slash: string, bracket: string, i: string, l: string,
                e: string, line: string, d: string, whole: string)
    requires d == slash + bracket && line == b + (c + n + slash) + bracket + i + ")](" + l + ")"
    requires whole == open + "\n" + line + "\n" + e + "\n"
    ensures whole == open + "\n" + b + c + n + d + i + ")](" + l + ")\n" + e + "\n"
  {
    assert ")" + "\n" == ")\n";
  }

  /** The whole block: the markers on lines of their own around one line of an image in a link. */
  lemma RenderedBlockIs(imagePath: string, linkPath: string, score: int)
    ensures RenderReadmeBlock(imagePath, linkPath, score)
         == "<!-- jankurai-badge:start -->" + "\n" + "[![" + "Jankurai score: " + Integer(score) + "/100](" + imagePath
            + ")](" + linkPath + ")\n" + "<!-- jankurai-badge:end -->" + "\n"
  {
    assert "/100" + "](" == "/100](";
    Spliced(BADGE.start, "[![", "Jankurai score: ", Integer(score), "/100", "](", imagePath, linkPath, BADGE.end,
            BadgeLine(AltText(score), imagePath, linkPath), "/100](", RenderReadmeBlock(imagePath, linkPath, score));
  }

  // ----- when a block between markers is well formed -----

  lemma TrimEndOnce(s: string)
    requires s != "" && s[|s| - 1] != '\n'
    ensures TrimEndLf(s + "\n") == s
  {
    assert (s + "\n")[..|s|] == s;
  }

  /** A pattern without a line feed occurs in a line exactly when it occurs with line feeds around it. */
  lemma OccursInLine(line: string, pat: string, tail: string)
    requires pat != "" && NoBreak(pat)
    ensures var s := "\n" + line + "\n" + tail;
            Absent(line, pat) <==> forall i: nat | i < |line| + 2 :: !OccursAt(s, pat, i)
  {
    var s := "\n" + line + "\n" + tail;
    assert s == "\n" + line + ("\n" + tail);
    forall i: nat | i < |line| + 2 && OccursAt(s, pat, i) ensures 0 < i && OccursAt(line, pat, i - 1) {
      assert i != 0 by {
        OccursIff(s, pat, 0);
        assert s[0] == '\n' && pat[0] != '\n';
      }
      OccurrenceBeforeLf(s, pat, i, |line| + 1);
      OccurrenceInside("\n", line, "\n" + tail, pat, i - 1);
    }
    forall i: nat | OccursAt(line, pat, i) ensures OccursAt(s, pat, i + 1) {
      OccurrenceInside("\n", line, "\n" + tail, pat, i);
    }
    if !Absent(line, pat) {
      var i: nat :| OccursAt(line, pat, i);
      assert OccursAt(s, pat, i + 1);
    }
  }

  lemma OccurrenceAfterPrefix(a: string, s: string, pat: string, i: nat)
    ensures OccursAt(a + s, pat, |a| + i) <==> OccursAt(s, pat, i)
  {
    var text := a + s;
    OccursIff(text, pat, |a| + i);
    OccursIff(s, pat, i);
    if i + |pat| <= |s| {
      assert forall k | 0 <= k < |s| :: text[|a| + k] == s[k];
      assert forall k | 0 <= k < |pat| :: pat[k] == s[i + k] <==> pat[k] == text[|a| + i + k];
    }
  }

  /** In a text after a prefix, searching finds what searching the text alone does. */
  lemma {:induction false} FindAfterPrefix(a: string, s: string, pat: string, from: nat)
    requires from <= |s|
    ensures match FindFrom(s, pat, from)
            case Some(k) => FindFrom(a + s, pat, |a| + from) == Some(|a| + k)
            case None => FindFrom(a + s, pat, |a| + from).None?
    decreases |s| - from
  {
    OccurrenceAfterPrefix(a, s, pat, from);
    if !OccursAt(s, pat, from) && from < |s| {
      FindAfterPrefix(a, s, pat, from + 1);
    }
  }

  lemma FindAfterLine(line: string, pat: string)
    requires pat != "" && NoBreak(pat)
    ensures Find("\n" + line + "\n" + pat, pat) == Some(|line| + 2) <==> !Contains(line, pat)
  {
    var s := "\n" + line + "\n" + pat;
    OccursInLine(line, pat, pat);
    ContainsIffOccurs(line, pat);
    OccursIff(s, pat, |line| + 2);
    if !Contains(line, pat) {
      FirstOccurrence(s, pat, 0, |line| + 2);
    }
  }

  lemma WellFormedByInner(m: Markers, b: string, inner: string)
    requires TrimEndLf(b) == m.start + inner && |inner| >= |m.end|
    ensures WellFormedBlock(m, b) <==> Find(inner, m.end) == Some(|inner| - |m.end|)
  {
    FindAfterPrefix(m.start, inner, m.end, 0);
  }

  lemma TrimMarked(m: Markers, line: string)
    requires m.Valid()
    ensures TrimEndLf(MarkedBlock(m, line)) == m.start + ("\n" + line + "\n" + m.end)
  {
    var block := m.start + ("\n" + line + "\n" + m.end);
    assert MarkedBlock(m, line) == block + "\n";
    assert block[|block| - 1] == m.end[|m.end| - 1];
    TrimEndOnce(block);
  }

  /** A rendered block is well formed exactly when its badge line does not itself hold the end marker. */
  lemma MarkedBlockWellFormed(m: Markers, line: string)
    requires m.Valid()
    ensures WellFormedBlock(m, MarkedBlock(m, line)) <==> !Contains(line, m.end)
  {
    TrimMarked(m, line);
    WellFormedByInner(m, MarkedBlock(m, line), "\n" + line + "\n" + m.end);
    FindAfterLine(line, m.end);
  }

  // ----- writing marked blocks -----

  lemma MarkedBlockEdged(m: Markers, line: string)
    requires m.Valid()
    ensures Edged(MarkedBlock(m, line)) && m.start <= TrimEndLf(MarkedBlock(m, line))
  {
    TrimMarked(m, line);
    var block := m.start + ("\n" + line + "\n" + m.end);
    assert block[|block| - 1] == m.end[|m.end| - 1] && block[0] == m.start[0];
  }

  /** What follows the first end marker inside a line still holds the real end marker, and more than the seam. */
  lemma LeftoverIsLong(line: string, end: string, tail: string, inner: string)
    requires end != "" && NoBreak(end) && Contains(line, end) && inner == "\n" + line + "\n" + end + tail
    ensures var found := Find(inner, end);
            found.Some? && |TrimStartLf(inner[found.value + |end|..])| >= |end| + |tail|
  {
    var j := Find(line, end).value;
    OccurrenceInside("\n", line, "\n" + end + tail, end, j);
    assert inner == "\n" + line + ("\n" + end + tail);
    OccursIff(line, end, j);
    var k := Find(inner, end).value;
    assert k <= j + 1;
    var stop := |line| + 2 - (k + |end|);
    var rest := inner[k + |end|..];
    assert rest[stop] == inner[|line| + 2] == end[0];
    assert LfRun(rest, 0) <= stop;
  }

  /** A rewrite that stops at an end marker inside the line leaves the rest of the old block in the document. */
  lemma LeftoverGrows(m: Markers, f: Frame, line: string, b2: string, at: nat)
    requires m.Valid() && GoodFrame(m, f) && Contains(line, m.end) && at <= |Assemble(f, MarkedBlock(m, line))|
    ensures var again := UpsertLf(m, Assemble(f, MarkedBlock(m, line)), at, b2);
            again.Ok? && |again.value| > |Assemble(f, b2)|
  {
    var tail := "\n" + Below(f.below);
    var inner := "\n" + line + "\n" + m.end + tail;
    MarkedBlockEdged(m, line);
    StartOfAssembled(m, f, MarkedBlock(m, line));
    AssembledMarked(m, f, line, tail, inner);
    LeftoverIsLong(line, m.end, tail, inner);
    LeftoverIn(m, f, inner, Assemble(f, MarkedBlock(m, line)), b2, at);
  }

  lemma LeftoverIn(m: Markers, f: Frame, inner: string, text: string, b2: string, at: nat)
    requires f.above == "" || f.above[|f.above| - 1] == '\n'
    requires text == f.above + m.start + inner && at <= |text| && Find(text, m.start) == Some(|f.above|)
    requires Find(inner, m.end).Some? && LongerAfter(inner, m.end, Below(f.below))
    ensures var again := UpsertLf(m, text, at, b2); again.Ok? && |again.value| > |Assemble(f, b2)|
  {
    var endStart, after := EndInText(m.end, f.above, m.start, inner, text);
    LeftoverAt(m, f, inner, text, b2, at, endStart, after);
  }

  lemma LeftoverAt(m: Markers, f: Frame, inner: string, text: string, b2: string, at: nat, endStart: nat, after: string)
    requires f.above == "" || f.above[|f.above| - 1] == '\n'
    requires at <= |text| && Find(text, m.start) == Some(|f.above|) && text[..|f.above|] == f.above
    requires FindFrom(text, m.end, |f.above| + |m.start|) == Some(endStart) && endStart + |m.end| <= |text|
    requires text[endStart + |m.end|..] == after
    requires Find(inner, m.end).Some? && after == inner[Find(inner, m.end).value + |m.end|..]
    requires LongerAfter(inner, m.end, Below(f.below))
    ensures var again := UpsertLf(m, text, at, b2); again.Ok? && |again.value| > |Assemble(f, b2)|
  {
    var left := TrimStartLf(after);
    LeftoverBelow(inner, m.end, after, Below(f.below), left);
    RewriteWith(m, f, Frame(f.above, left), text, at, endStart, after, left, b2);
  }

  lemma LeftoverBelow(inner: string, end: string, after: string, below: string, left: string)
    requires Find(inner, end).Some? && LongerAfter(inner, end, below)
    requires after == inner[Find(inner, end).value + |end|..] && left == TrimStartLf(after)
    ensures |left| > |below|
  {
  }

  /** What is left after the first end marker is longer than the text below the block. */
  predicate LongerAfter(inner: string, end: string, below: string)
    requires Find(inner, end).Some?
  {
    |TrimStartLf(inner[Find(inner, end).value + |end|..])| > |below|
  }

  lemma Associate(a: string, b: string, c: string)
    ensures a + b + c == a + (b + c)
  {
  }

  lemma AssembledMarked(m: Markers, f: Frame, line: string, tail: string, inner: string)
    requires m.Valid() && tail == "\n" + Below(f.below) && inner == "\n" + line + "\n" + m.end + tail
    ensures Assemble(f, MarkedBlock(m, line)) == f.above + m.start + inner
  {
    TrimMarked(m, line);
    var body := "\n" + line + "\n" + m.end;
    Regrouped(f, MarkedBlock(m, line), m.start, body, tail);
  }

  lemma Regrouped(f: Frame, block: string, start: string, body: string, tail: string)
    requires TrimEndLf(block) == start + body && tail == "\n" + Below(f.below)
    ensures Assemble(f, block) == f.above + start + (body + tail)
  {
    Associate(f.above + TrimEndLf(block), "\n", Below(f.below));
    Associate(f.above, start, body);
    Associate(f.above + start, body, tail);
  }

  /** Where the first end marker after the start marker is, and what follows it. */
  lemma EndInText(end: string, above: string, start: string, inner: string, text: string)
    returns (endStart: nat, after: string)
    requires text == above + start + inner && Find(inner, end).Some?
    ensures FindFrom(text, end, |above| + |start|) == Some(endStart) && endStart + |end| <= |text|
    ensures text[..|above|] == above && text[endStart + |end|..] == after
    ensures after == inner[Find(inner, end).value + |end|..]
  {
    var k := Find(inner, end).value;
    FindAfterPrefix(above + start, inner, end, 0);
    endStart, after := |above + start| + k, inner[k + |end|..];
    CutText(text, above + start, inner, above, start, k + |end|);
  }

  lemma RewriteWith(m: Markers, f: Frame, g: Frame, text: string, at: nat, endStart: nat, after: string,
                    left: string, b2: string)
    requires at <= |text| && Find(text, m.start) == Some(|g.above|)
    requires FindFrom(text, m.end, |g.above| + |m.start|) == Some(endStart)
    requires text[..|g.above|] == g.above && text[endStart + |m.end|..] == after && TrimStartLf(after) == left
    requires g.above == "" || g.above[|g.above| - 1] == '\n'
    requires g == Frame(f.above, left) && |left| > |Below(f.below)|
    ensures var again := UpsertLf(m, text, at, b2); again.Ok? && |again.value| > |Assemble(f, b2)|
  {
    FrameOfMarked(m, text, at, g, endStart, after);
    LongerBelow(f, g.below, b2);
  }

  lemma CutText(text: string, prefix: string, inner: string, above: string, start: string, n: nat)
    requires prefix == above + start && text == prefix + inner && n <= |inner|
    ensures text[..|above|] == above && text[|prefix| + n..] == inner[n..]
  {
  }

  lemma LongerBelow(f: Frame, below: string, b2: string)
    requires |below| > |Below(f.below)|
    ensures |Assemble(Frame(f.above, below), b2)| > |Assemble(f, b2)|
  {
  }

  /** With an end marker in the line, no second write is the last write. */
  lemma LeftoverStays(m: Markers, text: string, crlf: bool, at: nat, line: string, b2: string, at2: nat)
    requires m.Valid() && Contains(line, m.end) && Edged(b2)
    requires at <= |text| && UpsertLf(m, text, at, MarkedBlock(m, line)).Ok?
    requires at2 <= |ToLf(Restore(crlf, UpsertLf(m, text, at, MarkedBlock(m, line)).value))|
    ensures var written := Restore(crlf, UpsertLf(m, text, at, MarkedBlock(m, line)).value);
            var again := UpsertLf(m, ToLf(written), at2, b2);
            again.Ok? ==> Restore(HasCrLf(written), again.value) != Restore(crlf, UpsertLf(m, text, at, b2).value)
  {
    var f := FrameOf(PartsOf(m, text, at).value);
    KeptHasNoMarker(m, text, at);
    FrameIsGood(m, PartsOf(m, text, at).value);
    var first := Assemble(f, MarkedBlock(m, line));
    var written := Restore(crlf, first);
    var again := UpsertLf(m, ToLf(written), at2, b2);
    if again.Ok? {
      if crlf {
        AssembledExpands(f, MarkedBlock(m, line));
        LfRoundTrip(first);
        LeftoverGrows(m, f, line, b2, at2);
        LfRoundTrip(again.value);
        LfRoundTrip(Assemble(f, b2));
      } else if HasCrLf(first) {
        AssembledIsNotCrLf(f, b2, again.value);
      } else {
        ToLfIdentity(first);
        LeftoverGrows(m, f, line, b2, at2);
      }
    }
  }

  /**
   * For blocks between markers, whatever their lines: the last write wins exactly if the first line does not hold the
   * end marker and the seam is safe.
   */
  lemma MarkedLastWriteWins(m: Markers, existing: string, line1: string, line2: string)
    requires m.Valid() && Upsert(m, existing, MarkedBlock(m, line1)).Ok?
    ensures var b1, b2 := MarkedBlock(m, line1), MarkedBlock(m, line2);
            Upsert(m, Upsert(m, existing, b1).value, b2) == Upsert(m, existing, b2)
            <==> !Contains(line1, m.end) && SeamSafe(HasCrLf(existing), KeptOf(m, existing).value, b1)
  {
    var b1, b2 := MarkedBlock(m, line1), MarkedBlock(m, line2);
    MarkedBlockEdged(m, line2);
    MarkedBlockWellFormed(m, line1);
    if Contains(line1, m.end) {
      var text := ToLf(existing);
      var written := Upsert(m, existing, b1).value;
      LeftoverStays(m, text, HasCrLf(existing), InsertIndex(text), line1, b2, InsertIndex(ToLf(written)));
    } else {
      LastWriteWins(m, existing, b1, b2);
    }
  }

  // ----- the rendered line -----

  lemma OccurrenceAcross(a: string, c: char, b: string, pat: string, i: nat)
    requires c !in pat && OccursAt(a + [c] + b, pat, i)
    ensures i + |pat| <= |a| || i > |a|
  {
    var s := a + [c] + b;
    OccursIff(s, pat, i);
    assert s[|a|] == c;
    assert forall j | 0 <= j < |pat| :: pat[j] == s[i + j] && pat[j] != c;
    assert forall j | i <= j < i + |pat| :: s[j] == pat[j - i] != c;
  }

  /** A pattern without a character occurs around that character only on one of its sides. */
  lemma ContainsAcross(a: string, c: char, b: string, pat: string, s: string)
    requires pat != "" && c !in pat && s == a + [c] + b
    ensures Contains(s, pat) <==> Contains(a, pat) || Contains(b, pat)
  {
    ContainsIffOccurs(s, pat);
    ContainsIffOccurs(a, pat);
    ContainsIffOccurs(b, pat);
    assert s == a + ([c] + b);
    forall i: nat ensures OccursAt(a, pat, i) ==> OccursAt(s, pat, i) {
      if i + |pat| <= |a| {
        OccurrenceInPrefix(a, [c] + b, pat, i);
      }
    }
    forall i: nat ensures OccursAt(b, pat, i) <==> OccursAt(s, pat, |a + [c]| + i) {
      OccurrenceAfterPrefix(a + [c], b, pat, i);
    }
    if Contains(s, pat) {
      var i: nat :| OccursAt(s, pat, i);
      OccurrenceAcross(a, c, b, pat, i);
      if i > |a| {
        assert OccursAt(b, pat, i - |a| - 1);
      } else {
        OccurrenceInPrefix(a, [c] + b, pat, i);
      }
    }
  }

  lemma ContainsNeedsStart(s: string, pat: string)
    requires pat != "" && pat[0] !in s
    ensures !Contains(s, pat)
  {
    if Contains(s, pat) {
      OccursIff(s, pat, Find(s, pat).value);
    }
  }

  /** Text before an image, the image, the link and text after, as a Markdown image link puts them together. */
  function Linked(before: string, imagePath: string, linkPath: string, after: string): string {
    before + "(" + imagePath + ")" + "]" + "(" + linkPath + ")" + after
  }

  /** A pattern without parentheses that the surroundings lack is in a linked image only if a path holds it. */
  lemma LinkedContains(before: string, imagePath: string, linkPath: string, after: string, pat: string)
    requires pat != "" && '(' !in pat && ')' !in pat
    requires pat[0] !in before && pat[0] !in after && pat[0] != ']'
    ensures Contains(Linked(before, imagePath, linkPath, after), pat)
       <==> Contains(imagePath, pat) || Contains(linkPath, pat)
  {
    var s1 := linkPath + ")" + after;
    var s2 := "]" + "(" + s1;
    var s3 := imagePath + ")" + s2;
    ContainsAcross(linkPath, ')', after, pat, s1);
    ContainsAcross("]", '(', s1, pat, s2);
    ContainsAcross(imagePath, ')', s2, pat, s3);
    ContainsAcross(before, '(', s3, pat, before + "(" + s3);
    ContainsNeedsStart(before, pat);
    ContainsNeedsStart(after, pat);
    ContainsNeedsStart("]", pat);
    LinkedParts(before, imagePath, linkPath, after, s1, s2, s3);
  }

  lemma LinkedParts(before: string, imagePath: string, linkPath: string, after: string, s1: string, s2: string,
                    s3: string)
    requires s1 == linkPath + ")" + after && s2 == "]" + "(" + s1 && s3 == imagePath + ")" + s2
    ensures Linked(before, imagePath, linkPath, after) == before + "(" + s3
  {
    var x := before + "(" + imagePath + ")";
    assert x + s2 == before + "(" + s3;
    assert x + "]" + "(" + s1 == x + s2;
    assert (x + "]" + "(") + linkPath + ")" + after == (x + "]" + "(") + s1;
  }

  lemma BadgeLineLinked(alt: string, imagePath: string, linkPath: string)
    ensures BadgeLine(alt, imagePath, linkPath) == Linked("[![" + alt + "]", imagePath, linkPath, "")
  {
    var x := "[![" + alt;
    assert x + "](" == x + "]" + "(";
    var y := x + "](" + imagePath;
    assert y + ")](" == y + ")" + "]" + "(";
    assert Linked(x + "]", imagePath, linkPath, "") == y + ")" + "]" + "(" + linkPath + ")";
  }

  /** The alternative text is the fixed words and a number. */
  lemma AltTextIsPlain(score: int)
    ensures '<' !in AltText(score) && '\r' !in AltText(score)
  {
    assert '<' !in "Jankurai score: " && '\r' !in "Jankurai score: ";
    assert '<' !in "/100" && '\r' !in "/100";
    assert '<' !in Integer(score) && '\r' !in Integer(score);
  }

  lemma EndMarkerShape(end: string)
    requires end == BADGE.end
    ensures end != "" && end[0] == '<' && '(' !in end && ')' !in end
  {
    NoParenthesis(end, '(');
    NoParenthesis(end, ')');
  }

  lemma NoParenthesis(end: string, c: char)
    requires end == "<!-- jankurai-badge:end -->" && (c == '(' || c == ')')
    ensures c !in end
  {
  }

  /** A rendered line holds the end marker exactly if one of its two paths does. */
  lemma RenderedLineHasEnd(imagePath: string, linkPath: string, score: int, end: string)
    requires end == BADGE.end
    ensures Contains(BadgeLine(AltText(score), imagePath, linkPath), end)
       <==> Contains(imagePath, end) || Contains(linkPath, end)
  {
    EndMarkerShape(end);
    AltTextIsPlain(score);
    BadgeLineLinked(AltText(score), imagePath, linkPath);
    var before := "[![" + AltText(score) + "]";
    assert '<' !in before;
    LinkedContains(before, imagePath, linkPath, "", end);
  }

  /** A rendered block holds a CRLF pair exactly if one of its two paths does. */
  lemma MarkedLineCrLf(m: Markers, alt: string, imagePath: string, linkPath: string)
    requires m.Valid() && '\r' !in alt
    ensures HasCrLf(TrimEndLf(MarkedBlock(m, BadgeLine(alt, imagePath, linkPath))))
       <==> HasCrLf(imagePath) || HasCrLf(linkPath)
  {
    var line := BadgeLine(alt, imagePath, linkPath);
    TrimMarked(m, line);
    BadgeLineLinked(alt, imagePath, linkPath);
    var before, after := m.start + "\n" + ("[![" + alt + "]"), "\n" + m.end;
    LinkedGrows(m.start + "\n", "[![" + alt + "]", imagePath, linkPath, after);
    assert m.start + ("\n" + line + "\n" + m.end) == m.start + "\n" + line + after;
    assert '\r' !in m.start && '\r' !in m.end;
    assert '\r' !in before && '\r' !in after;
    LinkedContains(before, imagePath, linkPath, after, "\r\n");
  }

  lemma LinkedGrows(x: string, before: string, imagePath: string, linkPath: string, after: string)
    ensures Linked(x + before, imagePath, linkPath, after) == x + Linked(before, imagePath, linkPath, "") + after
  {
    var y := before + "(" + imagePath + ")" + "]" + "(" + linkPath + ")";
    assert Linked(before, imagePath, linkPath, "") == y;
    assert x + before + "(" + imagePath + ")" + "]" + "(" + linkPath + ")" == x + y;
  }

  // ----- the writer's own blocks -----

  /** What a caller can check about the document and the two paths before writing the badge. */
  predicate CanRewrite(existing: string, imagePath: string, linkPath: string)
    requires KeptOf(BADGE, existing).Ok?
  {
    var kept := KeptOf(BADGE, existing).value;
    && !Contains(imagePath, BADGE.end) && !Contains(linkPath, BADGE.end)
    && (HasCrLf(existing)
        || (!(kept != "" && kept[|kept| - 1] == '\r') && !HasCrLf(imagePath) && !HasCrLf(linkPath)))
  }

  /**
   * The badge writer's last write wins exactly if the first badge's paths do not hold the end marker and the document
   * has CRLF pairs, or neither the text above the badge ends in a carriage return nor a path holds a CRLF pair.
   */
  lemma RenderedLastWriteWins(existing: string, image1: string, link1: string, score1: int, image2: string,
                              link2: string, score2: int)
    requires Upsert(BADGE, existing, RenderReadmeBlock(image1, link1, score1)).Ok?
    ensures KeptOf(BADGE, existing).Ok?
    ensures var b1, b2 := RenderReadmeBlock(image1, link1, score1), RenderReadmeBlock(image2, link2, score2);
            Upsert(BADGE, Upsert(BADGE, existing, b1).value, b2) == Upsert(BADGE, existing, b2)
            <==> CanRewrite(existing, image1, link1)
  {
    var m := BADGE;
    BadgeMarkersValid();
    RenderedConditions(m, existing, image1, link1, score1);
    MarkedLastWriteWins(m, existing, BadgeLine(AltText(score1), image1, link1),
                        BadgeLine(AltText(score2), image2, link2));
  }

  lemma RenderedConditions(m: Markers, existing: string, image: string, link: string, score: int)
    requires m == BADGE && m.Valid() && KeptOf(m, existing).Ok?
    ensures var line := BadgeLine(AltText(score), image, link);
            !Contains(line, m.end) && SeamSafe(HasCrLf(existing), KeptOf(m, existing).value, MarkedBlock(m, line))
            <==> CanRewrite(existing, image, link)
  {
    AltTextIsPlain(score);
    RenderedLineHasEnd(image, link, score, m.end);
    MarkedLineCrLf(m, AltText(score), image, link);
  }

  /** A check right after an update reports no drift under the same exact condition. */
  lemma RenderedCheckAfterUpdate(existing: string, image: string, link: string, score: int)
    requires Upsert(BADGE, existing, RenderReadmeBlock(image, link, score)).Ok?
    ensures KeptOf(BADGE, existing).Ok?
    ensures var b := RenderReadmeBlock(image, link, score);
            var written := Upsert(BADGE, existing, b).value;
            Upsert(BADGE, written, b) == Ok(written) <==> CanRewrite(existing, image, link)
  {
    RenderedLastWriteWins(existing, image, link, score, image, link, score);
  }
}
