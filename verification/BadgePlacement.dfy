/** Where a missing badge block goes, in terms of the characters of the document's lines. */
module BadgePlacement {
  import opened Text
  import opened Badge

  // ----- trimming -----

  ghost predicate BlankBetween(s: string, from: nat, to: nat)
    requires to <= |s|
  {
    forall i | from <= i < to :: IsWhitespace(s[i])
  }

  /** The part of a line between its first and last characters that are no white space. */
  ghost predicate TrimsTo(s: string, from: nat, to: nat) {
    && from <= to <= |s| && BlankBetween(s, 0, from) && BlankBetween(s, to, |s|)
    && (from < to ==> !IsWhitespace(s[from]) && !IsWhitespace(s[to - 1]))
    && (from == to ==> BlankBetween(s, 0, |s|))
  }

  lemma {:induction false} TrimmedPart(s: string) returns (from: nat, to: nat)
    ensures TrimsTo(s, from, to) && Trim(s) == s[from..to]
    decreases |s|
  {
    if s == "" {
      from, to := 0, 0;
    } else if IsWhitespace(s[0]) {
      var f, t := TrimmedPart(s[1..]);
      from, to := f + 1, t + 1;
      assert s[1..][f..t] == s[from..to];
      BlankShift(s, f, t);
    } else if IsWhitespace(s[|s| - 1]) {
      var f, t := TrimmedPart(s[..|s| - 1]);
      from, to := f, t;
      assert s[..|s| - 1][f..t] == s[from..to];
      BlankTail(s, f, t);
    } else {
      from, to := 0, |s|;
      assert s[0..|s|] == s;
    }
  }

  lemma BlankShift(s: string, f: nat, t: nat)
    requires s != "" && IsWhitespace(s[0]) && TrimsTo(s[1..], f, t)
    ensures TrimsTo(s, f + 1, t + 1)
  {
    var rest := s[1..];
    forall i | 1 <= i < f + 1 || t + 1 <= i < |s| ensures IsWhitespace(s[i]) {
      assert s[i] == rest[i - 1];
    }
    if f == t {
      forall i | 1 <= i < |s| ensures IsWhitespace(s[i]) {
        assert s[i] == rest[i - 1];
      }
    }
  }

  lemma BlankTail(s: string, f: nat, t: nat)
    requires s != "" && IsWhitespace(s[|s| - 1]) && TrimsTo(s[..|s| - 1], f, t)
    ensures TrimsTo(s, f, t)
  {
    var front := s[..|s| - 1];
    forall i | 0 <= i < f || t <= i < |s| - 1 ensures IsWhitespace(s[i]) {
      assert s[i] == front[i];
    }
    if f == t {
      forall i | 0 <= i < |s| - 1 ensures IsWhitespace(s[i]) {
        assert s[i] == front[i];
      }
    }
  }

  // ----- what a line looks like -----

  /** All white space. */
  ghost predicate Blank(line: string) {
    BlankBetween(line, 0, |line|)
  }

  /** `pat` stands after the line's leading white space. */
  ghost predicate StartsWith(line: string, pat: string) {
    exists p: nat :: p <= |line| && BlankBetween(line, 0, p) && OccursAt(line, pat, p)
  }

  ghost predicate Holds(line: string, pat: string) {
    exists p: nat :: OccursAt(line, pat, p)
  }

  ghost predicate BadgeAt(line: string, p: nat) {
    && p + 5 <= |line|
    && line[p] in "bB" && line[p + 1] in "aA" && line[p + 2] in "dD" && line[p + 3] in "gG" && line[p + 4] in "eE"
  }

  /** The line holds the five letters, each in either case. */
  ghost predicate HoldsBadge(line: string) {
    exists p: nat :: BadgeAt(line, p)
  }

  /** White space around `pat` and nothing else. */
  ghost predicate Only(line: string, pat: string) {
    exists p: nat :: && p + |pat| <= |line| && OccursAt(line, pat, p)
                     && BlankBetween(line, 0, p) && BlankBetween(line, p + |pat|, |line|)
  }

  ghost predicate StaysAbove(line: string) {
    || Blank(line) || StartsWith(line, "[![") || StartsWith(line, "![") || StartsWith(line, "<p align=")
    || Holds(line, "shields.io") || (Holds(line, "<img") && HoldsBadge(line)) || Only(line, "</p>")
  }

  /** A hash and a blank after leading white space, and something after them. */
  ghost predicate Title(line: string) {
    exists p: nat :: && p + 2 < |line| && BlankBetween(line, 0, p) && line[p] == '#' && line[p + 1] == ' '
                     && !BlankBetween(line, p + 2, |line|)
  }

  // ----- patterns that neither start nor end with white space survive trimming -----

  ghost predicate Solid(pat: string) {
    pat != "" && !IsWhitespace(pat[0]) && !IsWhitespace(pat[|pat| - 1])
  }

  lemma OccursInTrimmed(s: string, from: nat, to: nat, pat: string, p: nat)
    requires TrimsTo(s, from, to) && Solid(pat)
    ensures OccursAt(s, pat, p) <==> from <= p && OccursAt(s[from..to], pat, p - from)
  {
    OccursIff(s, pat, p);
    if from <= p {
      OccursIff(s[from..to], pat, p - from);
    }
    if OccursAt(s, pat, p) {
      assert pat[0] == s[p + 0] && pat[|pat| - 1] == s[p + (|pat| - 1)];
      assert from <= p && p + |pat| <= to;
      forall i | 0 <= i < |pat| ensures pat[i] == s[from..to][p - from + i] {
        assert pat[i] == s[p + i];
      }
    }
    if from <= p && OccursAt(s[from..to], pat, p - from) {
      forall i | 0 <= i < |pat| ensures pat[i] == s[p + i] {
        assert pat[i] == s[from..to][p - from + i];
      }
    }
  }

  lemma HoldsIffContains(s: string, from: nat, to: nat, pat: string)
    requires TrimsTo(s, from, to) && Solid(pat)
    ensures Holds(s, pat) <==> Contains(s[from..to], pat)
  {
    var t := s[from..to];
    ContainsIffOccurs(t, pat);
    if Holds(s, pat) {
      var p: nat :| OccursAt(s, pat, p);
      OccursInTrimmed(s, from, to, pat, p);
      assert OccursAt(t, pat, p - from);
    }
    if Contains(t, pat) {
      var q: nat :| OccursAt(t, pat, q);
      OccursInTrimmed(s, from, to, pat, q + from);
    }
  }

  lemma StartsIffPrefix(s: string, from: nat, to: nat, pat: string)
    requires TrimsTo(s, from, to) && Solid(pat)
    ensures StartsWith(s, pat) <==> pat <= s[from..to]
  {
    var t := s[from..to];
    OccursFirst(t, pat);
    if StartsWith(s, pat) {
      var p: nat :| p <= |s| && BlankBetween(s, 0, p) && OccursAt(s, pat, p);
      OccursInTrimmed(s, from, to, pat, p);
      assert p <= from;
    }
    if pat <= t {
      OccursInTrimmed(s, from, to, pat, from);
      assert BlankBetween(s, 0, from) && OccursAt(s, pat, from);
    }
  }

  lemma OccursFirst(t: string, pat: string)
    ensures OccursAt(t, pat, 0) <==> pat <= t
  {
    OccursIff(t, pat, 0);
    if |pat| <= |t| {
      assert pat == t[..|pat|] <==> forall i | 0 <= i < |pat| :: pat[i] == t[0 + i];
    }
  }

  lemma OnlyIffEqual(s: string, from: nat, to: nat, pat: string)
    requires TrimsTo(s, from, to) && Solid(pat)
    ensures Only(s, pat) <==> s[from..to] == pat
  {
    var t := s[from..to];
    OccursIff(t, pat, 0);
    if Only(s, pat) {
      var p: nat :| && p + |pat| <= |s| && OccursAt(s, pat, p)
                    && BlankBetween(s, 0, p) && BlankBetween(s, p + |pat|, |s|);
      OccursInTrimmed(s, from, to, pat, p);
      assert p <= from && to <= p + |pat|;
      assert forall i | 0 <= i < |pat| :: pat[i] == t[0 + i];
      assert t == pat;
    }
    if t == pat {
      assert forall i | 0 <= i < |pat| :: pat[i] == t[0 + i];
      OccursInTrimmed(s, from, to, pat, from);
      assert OccursAt(s, pat, from);
    }
  }

  lemma LettersAreSolid(c: char)
    ensures 'A' <= c <= 'Z' || 'a' <= c <= 'z' ==> !IsWhitespace(c)
  {
  }

  lemma BadgeAtIff(s: string, p: nat)
    ensures BadgeAt(s, p) <==> OccursAt(LowerAscii(s), "badge", p)
  {
    OccursIff(LowerAscii(s), "badge", p);
    if p + 5 <= |s| {
      var low := LowerAscii(s);
      assert "badge"[0] == 'b' && "badge"[1] == 'a' && "badge"[2] == 'd' && "badge"[3] == 'g' && "badge"[4] == 'e';
      LowerIs(s[p], 'b', 'B', low[p]);
      LowerIs(s[p + 1], 'a', 'A', low[p + 1]);
      LowerIs(s[p + 2], 'd', 'D', low[p + 2]);
      LowerIs(s[p + 3], 'g', 'G', low[p + 3]);
      LowerIs(s[p + 4], 'e', 'E', low[p + 4]);
      FiveLetters(s, p);
      FiveMatches(low, "badge", p);
    }
  }

  /** A character lowers to a letter exactly if it is the letter in either case. */
  lemma LowerIs(c: char, small: char, large: char, low: char)
    requires 'a' <= small <= 'z' && large as int + 32 == small as int
    requires low == if 'A' <= c <= 'Z' then ((c as int) + 32) as char else c
    ensures low == small <==> c == small || c == large
  {
  }

  lemma FiveLetters(s: string, p: nat)
    requires p + 5 <= |s|
    ensures BadgeAt(s, p) <==>
              && (s[p] == 'b' || s[p] == 'B') && (s[p + 1] == 'a' || s[p + 1] == 'A')
              && (s[p + 2] == 'd' || s[p + 2] == 'D') && (s[p + 3] == 'g' || s[p + 3] == 'G')
              && (s[p + 4] == 'e' || s[p + 4] == 'E')
  {
    forall c, pair: string | |pair| == 2 ensures c in pair <==> c == pair[0] || c == pair[1] {
    }
  }

  lemma FiveMatches(s: string, pat: string, p: nat)
    requires |pat| == 5 && p + 5 <= |s|
    ensures (forall i | 0 <= i < 5 :: pat[i] == s[p + i]) <==>
              && s[p] == pat[0] && s[p + 1] == pat[1] && s[p + 2] == pat[2] && s[p + 3] == pat[3] && s[p + 4] == pat[4]
  {
    if s[p] == pat[0] && s[p + 1] == pat[1] && s[p + 2] == pat[2] && s[p + 3] == pat[3] && s[p + 4] == pat[4] {
      forall i | 0 <= i < 5 ensures pat[i] == s[p + i] {
        assert i == 0 || i == 1 || i == 2 || i == 3 || i == 4;
      }
    }
  }

  lemma HoldsBadgeIff(s: string, from: nat, to: nat)
    requires TrimsTo(s, from, to)
    ensures HoldsBadge(s) <==> Contains(LowerAscii(s[from..to]), "badge")
  {
    var t := s[from..to];
    ContainsIffOccurs(LowerAscii(t), "badge");
    if HoldsBadge(s) {
      var p: nat :| BadgeAt(s, p);
      BadgeInside(s, from, to, p);
      BadgeAtIff(t, p - from);
    }
    if Contains(LowerAscii(t), "badge") {
      var q: nat :| OccursAt(LowerAscii(t), "badge", q);
      BadgeAtIff(t, q);
      assert BadgeAt(s, q + from);
    }
  }

  lemma BadgeInside(s: string, from: nat, to: nat, p: nat)
    requires TrimsTo(s, from, to) && BadgeAt(s, p)
    ensures from <= p && BadgeAt(s[from..to], p - from)
  {
    FiveLetters(s, p);
    LettersAreSolid(s[p]);
    LettersAreSolid(s[p + 4]);
    assert from <= p && p + 5 <= to;
  }

  lemma SolidPatterns()
    ensures Solid("[![") && Solid("![") && Solid("shields.io") && Solid("<img") && Solid("</p>")
    ensures Solid("<p align=")
  {
  }

  // ----- lines -----

  lemma TitleIff(line: string)
    ensures TitleLine(line) <==> Title(line)
  {
    var from, to := TrimmedPart(line);
    var t := line[from..to];
    assert Trim(line) == t;
    if Title(line) {
      var p: nat :| && p + 2 < |line| && BlankBetween(line, 0, p) && line[p] == '#' && line[p + 1] == ' '
                    && !BlankBetween(line, p + 2, |line|);
      assert p == from;
      var i :| p + 2 <= i < |line| && !IsWhitespace(line[i]);
      assert i < to;
      assert t[0] == '#' && t[1] == ' ';
      assert t[..2] == "# ";
    }
    if "# " <= t {
      assert t[..2] == "# " && t[0] == t[..2][0] && t[1] == t[..2][1];
      assert line[from] == '#' && line[from + 1] == ' ';
      assert !IsWhitespace(line[to - 1]);
      assert to - 1 >= from + 2;
    }
  }

  lemma BlankIff(line: string, from: nat, to: nat)
    requires TrimsTo(line, from, to)
    ensures Blank(line) <==> line[from..to] == ""
  {
  }

  lemma StaysAboveIff(line: string)
    ensures HeaderLine(line) <==> StaysAbove(line)
  {
    var from, to := TrimmedPart(line);
    SolidPatterns();
    BlankIff(line, from, to);
    StartsIffPrefix(line, from, to, "[![");
    StartsIffPrefix(line, from, to, "![");
    StartsIffPrefix(line, from, to, "<p align=");
    HoldsIffContains(line, from, to, "shields.io");
    HoldsIffContains(line, from, to, "<img");
    HoldsBadgeIff(line, from, to);
    OnlyIffEqual(line, from, to, "</p>");
  }

  /** A line of the text: from its first character to its line feed, or to the end of the text. */
  ghost predicate LineAt(text: string, a: int, b: int) {
    && 0 <= a < b <= |text| && (a == 0 || text[a - 1] == '\n') && (b == |text| || text[b - 1] == '\n')
    && forall i | a <= i < b - 1 :: text[i] != '\n'
  }

  lemma {:induction false} FirstLine(text: string) returns (end: nat)
    requires text != ""
    ensures LineAt(text, 0, end) && Lines(text) == [text[..end]] + Lines(text[end..])
    decreases |text|
  {
    var rest := text[1..];
    if text[0] == '\n' || rest == "" {
      end := 1;
      assert text[..1] == [text[0]];
    } else {
      var e := FirstLine(rest);
      end := e + 1;
      assert Lines(rest)[0 := [text[0]] + rest[..e]] == [[text[0]] + rest[..e]] + Lines(rest[e..]);
      assert [text[0]] + rest[..e] == text[..end];
      assert rest[e..] == text[end..];
      LineGrows(text, e);
    }
  }

  lemma LineGrows(text: string, e: nat)
    requires text != "" && text[0] != '\n' && LineAt(text[1..], 0, e)
    ensures LineAt(text, 0, e + 1)
  {
    var rest := text[1..];
    forall i | 0 <= i < e ensures text[i] != '\n' {
      if i > 0 {
        assert text[i] == rest[i - 1];
      }
    }
  }

  /** The lines of a text are its first one and those of what follows. */
  lemma OtherLines(text: string, end: nat, a: nat, b: nat)
    requires LineAt(text, 0, end)
    ensures LineAt(text, a, b)
       <==> (a == 0 && b == end) || (end <= a && end <= b && LineAt(text[end..], a - end, b - end))
  {
    var rest := text[end..];
    if LineAt(text, a, b) {
      if a < end {
        LinesApart(text, end, a, b);
      } else {
        assert a < |text| && end < |text|;
        assert a > end ==> rest[a - end - 1] == text[a - 1];
        assert b < |text| ==> rest[b - end - 1] == text[b - 1];
        forall i | a - end <= i < b - end - 1 ensures rest[i] != '\n' {
          assert rest[i] == text[i + end];
        }
      }
    }
    if end <= a && end <= b && LineAt(rest, a - end, b - end) {
      assert a > end ==> rest[a - end - 1] == text[a - 1];
      assert b < |text| ==> rest[b - end - 1] == text[b - 1];
      forall i | a <= i < b - 1 ensures text[i] != '\n' {
        assert rest[i - end] == text[i];
      }
    }
  }

  lemma LinesApart(text: string, end: nat, a: nat, b: nat)
    requires LineAt(text, 0, end) && LineAt(text, a, b) && a < end
    ensures a == 0 && b == end
  {
  }

  /** The lines that start between `from` and `to` stay above. */
  ghost predicate AllAbove(text: string, from: int, to: int) {
    forall a, b | LineAt(text, a, b) && from <= a <= to :: StaysAbove(text[a..b])
  }

  /** From `from` on, the point `at` lies beyond a line exactly if the line and those before it stay above. */
  ghost predicate Separates(text: string, at: nat, from: nat) {
    forall a, b | LineAt(text, a, b) && from <= a ::
      b <= at <==> AllAbove(text, from, a)
  }

  ghost function RunLength(text: string): nat {
    |Concat(Lines(text)[..HeaderRun(Lines(text))])|
  }

  lemma {:induction false} RunSeparates(text: string)
    ensures Separates(text, RunLength(text), 0)
    decreases |text|
  {
    if text != "" {
      var end := FirstLine(text);
      var rest := text[end..];
      RunSeparates(rest);
      RunStep(text, end, rest);
      StaysAboveIff(text[..end]);
      SeparatesStep(text, end, rest, RunLength(rest), RunLength(text));
    }
  }

  lemma RunStep(text: string, end: nat, rest: string)
    requires LineAt(text, 0, end) && rest == text[end..] && Lines(text) == [text[..end]] + Lines(rest)
    ensures RunLength(text) == if HeaderLine(text[..end]) then end + RunLength(rest) else 0
  {
    var lines := Lines(text);
    assert lines[1..] == Lines(rest);
    if HeaderLine(text[..end]) {
      var n := HeaderRun(Lines(rest));
      assert lines[..1 + n][1..] == Lines(rest)[..n];
    }
  }

  lemma SeparatesStep(text: string, end: nat, rest: string, atRest: nat, at: nat)
    requires LineAt(text, 0, end) && rest == text[end..] && Separates(rest, atRest, 0)
    requires at == if StaysAbove(text[..end]) then end + atRest else 0
    ensures Separates(text, at, 0)
  {
    forall a, b | LineAt(text, a, b)
      ensures b <= at <==> AllAbove(text, 0, a)
    {
      OtherLines(text, end, a, b);
      assert text[0..end] == text[..end];
      if a == 0 {
        OnlyFirst(text, end, a);
      } else {
        FollowingLines(text, end, rest, a);
        assert LineAt(rest, a - end, b - end);
      }
    }
  }

  lemma OnlyFirst(text: string, end: nat, a: nat)
    requires LineAt(text, 0, end) && a == 0
    ensures AllAbove(text, 0, a) <==> StaysAbove(text[..end])
  {
    assert text[0..end] == text[..end];
    forall d: nat | LineAt(text, 0, d) ensures d == end {
      OtherLines(text, end, 0, d);
    }
  }

  lemma FollowingLines(text: string, end: nat, rest: string, a: nat)
    requires LineAt(text, 0, end) && rest == text[end..] && end <= a
    ensures AllAbove(text, 0, a)
       <==> && StaysAbove(text[..end])
            && AllAbove(rest, 0, a - end)
  {
    assert text[0..end] == text[..end];
    if AllAbove(text, 0, a) {
      forall c: nat, d: nat | LineAt(rest, c, d) && 0 <= c <= a - end ensures StaysAbove(rest[c..d]) {
        OtherLines(text, end, c + end, d + end);
        assert text[c + end..d + end] == rest[c..d];
      }
    }
    if StaysAbove(text[..end]) && AllAbove(rest, 0, a - end) {
      forall c: nat, d: nat | LineAt(text, c, d) && 0 <= c <= a ensures StaysAbove(text[c..d]) {
        OtherLines(text, end, c, d);
        if c > 0 {
          assert text[c..d] == rest[c - end..d - end];
        }
      }
    }
  }

  // ----- the insertion point -----

  /** The text's first line is a title. */
  ghost predicate TitleLed(text: string) {
    exists end: nat :: LineAt(text, 0, end) && Title(text[..end])
  }

  /**
   * Without a title the block goes to the top. Below a title it goes beyond a line exactly if that line and all
   * between it and the title are blank or badge lines; the title itself always stays above.
   */
  lemma InsertionPoint(text: string, at: nat)
    requires at == InsertIndex(text)
    ensures !TitleLed(text) ==> at == 0
    ensures TitleLed(text) ==> Separates(text, at, 1) && (forall end | LineAt(text, 0, end) :: end <= at)
    ensures at == 0 || exists a: nat :: LineAt(text, a, at)
  {
    if text != "" {
      var end := FirstLine(text);
      var rest := text[end..];
      TitleIff(text[..end]);
      forall e: nat | LineAt(text, 0, e) ensures e == end {
        OtherLines(text, end, 0, e);
      }
      IndexStep(text, end, rest, at);
      if Title(text[..end]) {
        RunSeparates(rest);
        BelowTitle(text, end, rest, RunLength(rest), at);
        RunEndsLine(rest);
        EndsLater(text, end, rest, RunLength(rest), at);
      }
    }
  }

  lemma IndexStep(text: string, end: nat, rest: string, at: nat)
    requires LineAt(text, 0, end) && rest == text[end..] && Lines(text) == [text[..end]] + Lines(rest)
    requires at == InsertIndex(text)
    ensures at == if TitleLine(text[..end]) then end + RunLength(rest) else 0
  {
    var lines := Lines(text);
    assert lines[1..] == Lines(rest);
    if TitleLine(text[..end]) {
      var n := HeaderRun(Lines(rest));
      assert lines[..1 + n][1..] == Lines(rest)[..n];
    }
  }

  lemma BelowTitle(text: string, end: nat, rest: string, atRest: nat, at: nat)
    requires LineAt(text, 0, end) && rest == text[end..] && Separates(rest, atRest, 0) && at == end + atRest
    ensures Separates(text, at, 1)
  {
    forall a, b | LineAt(text, a, b) && 1 <= a
      ensures b <= at <==> AllAbove(text, 1, a)
    {
      OtherLines(text, end, a, b);
      assert LineAt(rest, a - end, b - end);
      LinesBelow(text, end, rest, a);
    }
  }

  lemma LinesBelow(text: string, end: nat, rest: string, a: nat)
    requires LineAt(text, 0, end) && rest == text[end..] && end <= a
    ensures AllAbove(text, 1, a)
       <==> AllAbove(rest, 0, a - end)
  {
    if AllAbove(text, 1, a) {
      forall c, d | LineAt(rest, c, d) && 0 <= c <= a - end ensures StaysAbove(rest[c..d]) {
        LaterLine(text, end, rest, c, d);
      }
    }
    if AllAbove(rest, 0, a - end) {
      forall c, d | LineAt(text, c, d) && 1 <= c <= a ensures StaysAbove(text[c..d]) {
        OtherLines(text, end, c, d);
        LaterLine(text, end, rest, c - end, d - end);
      }
    }
  }

  lemma LaterLine(text: string, end: nat, rest: string, c: nat, d: nat)
    requires LineAt(text, 0, end) && rest == text[end..] && LineAt(rest, c, d)
    ensures LineAt(text, c + end, d + end) && text[c + end..d + end] == rest[c..d]
  {
    OtherLines(text, end, c + end, d + end);
  }

  lemma {:induction false} RunEndsLine(text: string)
    ensures RunLength(text) == 0 || exists a: nat :: LineAt(text, a, RunLength(text))
    decreases |text|
  {
    if text != "" {
      var end := FirstLine(text);
      var rest := text[end..];
      RunStep(text, end, rest);
      RunEndsLine(rest);
      if HeaderLine(text[..end]) {
        EndsLater(text, end, rest, RunLength(rest), RunLength(text));
      }
    }
  }

  lemma EndsLater(text: string, end: nat, rest: string, atRest: nat, at: nat)
    requires LineAt(text, 0, end) && rest == text[end..] && at == end + atRest
    requires atRest == 0 || exists a: nat :: LineAt(rest, a, atRest)
    ensures exists a: nat :: LineAt(text, a, at)
  {
    if atRest > 0 {
      var a: nat :| LineAt(rest, a, atRest);
      OtherLines(text, end, a + end, at);
    }
  }
}
