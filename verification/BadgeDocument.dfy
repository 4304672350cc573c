/** What rewriting the badge keeps of the document around it, for any line endings. */
module BadgeDocument {
  import opened Wrappers
  import opened Text
  import opened Badge

  // ----- LF documents -----

  lemma SliceAtOccurrence(s: string, pat: string, lo: nat, hi: nat)
    requires OccursAt(s, pat, lo) && lo + |pat| <= hi <= |s|
    ensures pat <= s[lo..hi]
  {
    OccursIff(s, pat, lo);
  }

  lemma PartsCompose(m: Markers, text: string, at: nat, parts: Parts)
    requires at <= |text| && PartsOf(m, text, at) == Ok(parts)
    ensures text == parts.kept + parts.replaced + parts.rest
    ensures if Contains(text, m.start) then m.start <= parts.replaced && Find(text, m.start) == Some(|parts.kept|)
            else parts.replaced == "" && |parts.kept| == at
  {
    if parts.found {
      SliceAtOccurrence(text, m.start, |parts.kept|, |parts.kept| + |parts.replaced|);
    }
  }

  function Separator(below: string): (sep: string)
    ensures OnlyLf(sep)
  {
    if below == "" then "\n" else "\n\n"
  }

  lemma AssembledAroundBlock(f: Frame, b: string)
    ensures Assemble(f, b) == f.above + TrimEndLf(b) + Separator(f.below) + f.below
  {
  }

  /**
   * A rewrite keeps the document: the old text is the text above, the old block (or nothing), line
   * feeds and the text below; the new one is the same text above and below around the new block, with
   * only line feeds at the seams.
   */
  lemma UpsertPreservesDocument(m: Markers, text: string, at: nat, b: string, parts: Parts) returns (lfs: string)
    requires at <= |text| && PartsOf(m, text, at) == Ok(parts)
    ensures text == parts.kept + parts.replaced + parts.rest
    ensures if Contains(text, m.start) then m.start <= parts.replaced && Find(text, m.start) == Some(|parts.kept|)
            else parts.replaced == "" && |parts.kept| == at
    ensures var below := TrimStartLf(parts.rest);
            var pad, sep := Pad(parts.kept, parts.found), Separator(below);
            && OnlyLf(lfs) && OnlyLf(pad) && OnlyLf(sep) && parts.rest == lfs + below
            && UpsertLf(m, text, at, b) == Ok(parts.kept + pad + TrimEndLf(b) + sep + below)
  {
    PartsCompose(m, text, at, parts);
    AssembledAroundBlock(FrameOf(parts), b);
    lfs := parts.rest[..LfRun(parts.rest, 0)];
  }

  // ----- line endings of the original -----

  ghost predicate FollowsCr(s: string, i: nat)
    requires i < |s|
  {
    i > 0 && s[i - 1] == '\r'
  }

  /** Every line feed follows a carriage return. */
  ghost predicate Paired(s: string) {
    forall i {:trigger FollowsCr(s, i)} | 0 <= i < |s| && s[i] == '\n' :: FollowsCr(s, i)
  }

  lemma PairedStep(s: string)
    requires s != ""
    ensures if |s| >= 2 && s[0] == '\r' && s[1] == '\n' then Paired(s) <==> Paired(s[2..])
            else Paired(s) <==> s[0] != '\n' && Paired(s[1..])
  {
    var head := if |s| >= 2 && s[0] == '\r' && s[1] == '\n' then 2 else 1;
    var rest := s[head..];
    if Paired(s) {
      forall i | 0 <= i < |rest| && rest[i] == '\n' ensures FollowsCr(rest, i) {
        assert s[i + head] == '\n' && FollowsCr(s, i + head);
      }
      assert s[0] == '\n' ==> FollowsCr(s, 0);
    }
    if Paired(rest) && (head == 2 || s[0] != '\n') {
      forall i | 0 <= i < |s| && s[i] == '\n' ensures FollowsCr(s, i) {
        if i >= head {
          assert rest[i - head] == '\n' && FollowsCr(rest, i - head);
        }
      }
    }
  }

  /** Collapsing and expanding never shortens a text, and gives it back exactly if its line feeds are paired. */
  lemma {:induction false} ExpandsBack(s: string)
    ensures |ToCrLf(ToLf(s))| >= |s|
    ensures ToCrLf(ToLf(s)) == s <==> Paired(s)
    ensures |ToCrLf(ToLf(s))| == |s| <==> Paired(s)
  {
    if s != "" {
      PairedStep(s);
      if |s| >= 2 && s[0] == '\r' && s[1] == '\n' {
        ExpandsBack(s[2..]);
        assert ToLf(s)[1..] == ToLf(s[2..]);
        assert s == "\r\n" + s[2..];
      } else {
        ExpandsBack(s[1..]);
        assert ToLf(s)[1..] == ToLf(s[1..]);
        assert s == [s[0]] + s[1..];
      }
    }
  }

  lemma {:induction false} ToCrLfConcat(a: string, b: string)
    ensures ToCrLf(a + b) == ToCrLf(a) + ToCrLf(b)
  {
    if a == "" {
      assert a + b == b;
    } else {
      assert (a + b)[1..] == a[1..] + b;
      ToCrLfConcat(a[1..], b);
    }
  }

  /** How many characters of the original make the first one of its LF form. */
  function Width(s: string): nat
    requires s != ""
  {
    if |s| >= 2 && s[0] == '\r' && s[1] == '\n' then 2 else 1
  }

  function FirstLf(s: string): char
    requires s != ""
  {
    if Width(s) == 2 then '\n' else s[0]
  }

  lemma ToLfStep(s: string)
    requires s != ""
    ensures ToLf(s) == [FirstLf(s)] + ToLf(s[Width(s)..])
  {
  }

  /** Where in the original the `n`th character of its LF form comes from. */
  function Origin(s: string, n: nat): (k: nat)
    requires n <= |ToLf(s)|
    ensures k <= |s|
  {
    if n == 0 then 0 else Width(s) + Origin(s[Width(s)..], n - 1)
  }

  /** Cutting the original there cuts its LF form at `n`. */
  lemma OriginCuts(s: string, n: nat)
    requires n <= |ToLf(s)|
    ensures CutsAt(s, ToLf(s), n, Origin(s, n))
  {
    LfOrigin(s, ToLf(s), n);
  }

  ghost predicate CutsAt(s: string, lf: string, n: nat, k: nat)
    requires n <= |lf| && k <= |s|
  {
    ToLf(s[..k]) == lf[..n] && ToLf(s[k..]) == lf[n..]
  }

  lemma {:induction false} LfOrigin(s: string, lf: string, n: nat)
    requires lf == ToLf(s) && n <= |lf|
    ensures CutsAt(s, lf, n, Origin(s, n))
    decreases n
  {
    if n > 0 {
      var rest := s[Width(s)..];
      var onward := ToLf(rest);
      ToLfStep(s);
      LfOrigin(rest, onward, n - 1);
      CutsStep(s, rest, lf, onward, n, Origin(rest, n - 1));
    } else {
      assert s[..0] == "" && lf[..0] == "" && s[0..] == s && lf[0..] == lf;
    }
  }

  lemma CutsStep(s: string, rest: string, lf: string, onward: string, n: nat, j: nat)
    requires s != "" && rest == s[Width(s)..] && lf == ToLf(s) && onward == ToLf(rest)
    requires 0 < n <= |onward| + 1 == |lf| && j <= |rest| && CutsAt(rest, onward, n - 1, j)
    ensures CutsAt(s, lf, n, Width(s) + j)
  {
    var k := Width(s) + j;
    ToLfStep(s);
    PrefixStep(s, rest, j, s[..k]);
    Beyond(s, Width(s), rest, j);
    CutLater(FirstLf(s), onward, n, lf);
    OneMoreCut(FirstLf(s), onward, n, lf, ToLf(s[..k]), ToLf(s[k..]), ToLf(rest[..j]));
  }

  lemma OneMoreCut(c: char, onward: string, n: nat, lf: string, front: string, back: string, later: string)
    requires 0 < n <= |lf| && lf == [c] + onward && front == [c] + later && later == onward[..n - 1]
    requires back == onward[n - 1..]
    ensures front == lf[..n] && back == lf[n..]
  {
  }

  lemma Beyond(s: string, w: nat, rest: string, j: nat)
    requires w <= |s| && rest == s[w..] && j <= |rest|
    ensures s[w + j..] == rest[j..]
  {
  }

  lemma PrefixStep(s: string, rest: string, j: nat, t: string)
    requires s != "" && rest == s[Width(s)..] && j <= |rest| && t == s[..Width(s) + j]
    ensures ToLf(t) == [FirstLf(s)] + ToLf(rest[..j])
  {
    assert t[0] == s[0] && (|t| > 1 ==> t[1] == s[1]);
    ToLfStep(t);
    assert t[Width(s)..] == rest[..j];
  }

  lemma CutLater(c: char, rest: string, n: nat, all: string)
    requires all == [c] + rest && 0 < n <= |all|
    ensures all[..n] == [c] + rest[..n - 1] && all[n..] == rest[n - 1..]
  {
  }

  // ----- any document -----

  lemma RestoreConcat(crlf: bool, a: string, b: string)
    ensures Restore(crlf, a + b) == Restore(crlf, a) + Restore(crlf, b)
  {
    ToCrLfConcat(a, b);
  }

  /**
   * The rewrite of a document with any line endings: the text above, padding, the block, a separator and the text
   * below, each written with the document's line endings.
   */
  lemma UpsertOnAnyDocument(m: Markers, existing: string, b: string, parts: Parts)
    requires PartsOf(m, ToLf(existing), InsertIndex(ToLf(existing))) == Ok(parts)
    ensures ToLf(existing) == parts.kept + parts.replaced + parts.rest
    ensures var crlf, below := HasCrLf(existing), TrimStartLf(parts.rest);
            var pad, sep := Pad(parts.kept, parts.found), Separator(below);
            Upsert(m, existing, b)
            == Ok(Restore(crlf, parts.kept) + Restore(crlf, pad) + Restore(crlf, TrimEndLf(b)) + Restore(crlf, sep)
                  + Restore(crlf, below))
  {
    var crlf, text, below := HasCrLf(existing), ToLf(existing), TrimStartLf(parts.rest);
    var pad, sep := Pad(parts.kept, parts.found), Separator(below);
    var lfs := UpsertPreservesDocument(m, text, InsertIndex(text), b, parts);
    RestoreFive(crlf, parts.kept, pad, TrimEndLf(b), sep, below);
  }

  lemma RestoreFive(crlf: bool, a: string, b: string, c: string, d: string, e: string)
    ensures Restore(crlf, a + b + c + d + e)
         == Restore(crlf, a) + Restore(crlf, b) + Restore(crlf, c) + Restore(crlf, d) + Restore(crlf, e)
  {
    RestoreConcat(crlf, a + b + c + d, e);
    RestoreConcat(crlf, a + b + c, d);
    RestoreConcat(crlf, a + b, c);
    RestoreConcat(crlf, a, b);
  }

  /** The original cut into the text above, what the rewrite replaces, and the text below. */
  datatype Original = Original(above: string, between: string, below: string)

  ghost predicate Cuts(o: Original, existing: string, parts: Parts) {
    && existing == o.above + o.between + o.below
    && ToLf(o.above) == parts.kept && ToLf(o.below) == TrimStartLf(parts.rest)
    && ToLf(o.between) + ToLf(o.below) == parts.replaced + parts.rest
  }

  /** Every document can be cut like that. */
  lemma OriginalOf(existing: string, parts: Parts) returns (o: Original)
    requires ToLf(existing) == parts.kept + parts.replaced + parts.rest
    ensures Cuts(o, existing, parts)
  {
    var above, onward := CutAbove(existing, parts.kept, parts.replaced + parts.rest);
    o := CutOnward(above, onward, parts);
    Reassociate(o.above, o.between, o.below);
  }

  lemma Reassociate(a: string, b: string, c: string)
    ensures a + b + c == a + (b + c)
  {
  }

  lemma CutAbove(existing: string, kept: string, onward: string) returns (above: string, rest: string)
    requires ToLf(existing) == kept + onward
    ensures existing == above + rest && ToLf(above) == kept && ToLf(rest) == onward
  {
    OriginCuts(existing, |kept|);
    var k := Origin(existing, |kept|);
    above, rest := existing[..k], existing[k..];
  }

  lemma CutOnward(above: string, onward: string, parts: Parts) returns (o: Original)
    requires ToLf(above) == parts.kept && ToLf(onward) == parts.replaced + parts.rest
    ensures o.above == above && onward == o.between + o.below
    ensures ToLf(o.below) == TrimStartLf(parts.rest)
    ensures ToLf(o.between) + ToLf(o.below) == parts.replaced + parts.rest
  {
    var all, below := parts.replaced + parts.rest, TrimStartLf(parts.rest);
    var n := |all| - |below|;
    assert all[n..] == below;
    OriginCuts(onward, n);
    var k := Origin(onward, n);
    o := Original(above, onward[..k], onward[k..]);
    assert all == all[..n] + all[n..];
  }

  lemma PartsWithoutCrLf(o: Original, existing: string)
    requires existing == o.above + o.between + o.below && !HasCrLf(existing)
    ensures ToLf(o.above) == o.above && ToLf(o.below) == o.below
  {
    var n := |o.above|;
    NoCrLfSlice(existing, 0, n);
    assert existing[0..n] == o.above;
    NoCrLfSlice(existing, |existing| - |o.below|, |existing|);
    assert existing[|existing| - |o.below|..|existing|] == o.below;
    ToLfIdentity(o.above);
    ToLfIdentity(o.below);
  }

  /** Two texts around the same middle: when neither shrinks, the whole is kept only if both are. */
  lemma SameAround(a: string, x: string, mid: string, b: string, y: string)
    requires |a| >= |x| && |b| >= |y| && a + mid + b == x + mid + y
    ensures |a| == |x| && |b| == |y|
  {
    assert |a + mid + b| == |a| + |mid| + |b|;
    assert |x + mid + y| == |x| + |mid| + |y|;
  }

  /**
   * The text above and below the block is kept character for character exactly if the document has no CRLF pair, or
   * every line feed of that text follows a carriage return.
   */
  lemma SurroundingsKeptIff(m: Markers, existing: string, b: string, parts: Parts, o: Original)
    requires PartsOf(m, ToLf(existing), InsertIndex(ToLf(existing))) == Ok(parts) && Cuts(o, existing, parts)
    ensures var crlf := HasCrLf(existing);
            var written := Pad(parts.kept, parts.found) + TrimEndLf(b) + Separator(TrimStartLf(parts.rest));
            Upsert(m, existing, b) == Ok(o.above + Restore(crlf, written) + o.below)
            <==> !crlf || (Paired(o.above) && Paired(o.below))
  {
    var crlf, below := HasCrLf(existing), TrimStartLf(parts.rest);
    var pad, block, sep := Pad(parts.kept, parts.found), TrimEndLf(b), Separator(below);
    var mid := Restore(crlf, pad + block + sep);
    UpsertOnAnyDocument(m, existing, b, parts);
    RestoreConcat(crlf, pad + block, sep);
    RestoreConcat(crlf, pad, block);
    Regroup(Restore(crlf, parts.kept), Restore(crlf, pad), Restore(crlf, block), Restore(crlf, sep),
            Restore(crlf, below));
    KeptAround(crlf, existing, o, mid);
  }

  lemma Regroup(a: string, b: string, c: string, d: string, e: string)
    ensures a + b + c + d + e == a + (b + c + d) + e
  {
  }

  lemma KeptAround(crlf: bool, existing: string, o: Original, mid: string)
    requires existing == o.above + o.between + o.below && crlf == HasCrLf(existing)
    ensures Restore(crlf, ToLf(o.above)) + mid + Restore(crlf, ToLf(o.below)) == o.above + mid + o.below
       <==> !crlf || (Paired(o.above) && Paired(o.below))
  {
    if crlf {
      ExpandsBack(o.above);
      ExpandsBack(o.below);
      var a, b := ToCrLf(ToLf(o.above)), ToCrLf(ToLf(o.below));
      if a + mid + b == o.above + mid + o.below {
        SameAround(a, o.above, mid, b, o.below);
      }
    } else {
      PartsWithoutCrLf(o, existing);
    }
  }

  // ----- a document that is not kept -----

  /** A document with both kinds of line endings has a lone line feed rewritten two lines away from the block. */
  lemma MixedLineEndingsChange(m: Markers, b: string)
    requires m.Valid() && |m.start| > 5
    ensures var existing := "a\r\nb\nc";
            && Upsert(m, existing, b) == Ok(ToCrLf(TrimEndLf(b)) + "\r\n\r\n" + "a\r\nb\r\nc")
            && "a\r\nb\r\nc" != existing
  {
    var existing, text := "a\r\nb\nc", "a\nb\nc";
    MixedIsCrLf(existing);
    MixedToLf(existing, text);
    MixedBack(text, "a\r\nb\r\nc");
    BlankLine("\n\n", "\r\n\r\n");
    UntitledText(m, existing, text, b);
  }

  /** A document without markers, whose first line is no title, gets the block on top. */
  lemma UntitledText(m: Markers, existing: string, text: string, b: string)
    requires ToLf(existing) == text && text != "" && HasCrLf(existing) && |text| < |m.start|
    requires !IsWhitespace(text[0]) && text[0] != '#' && text[0] != '\n'
    ensures Upsert(m, existing, b) == Ok(ToCrLf(TrimEndLf(b)) + ToCrLf("\n\n") + ToCrLf(text))
  {
    NoTitle(text);
    UnmarkedAtTop(m, text);
    UpsertOnAnyDocument(m, existing, b, Parts("", "", text, false));
    LeaveOutEmpty(ToCrLf(TrimEndLf(b)), ToCrLf("\n\n"), ToCrLf(text));
  }

  lemma UnmarkedAtTop(m: Markers, text: string)
    requires text != "" && |text| < |m.start| && text[0] != '\n'
    ensures PartsOf(m, text, 0) == Ok(Parts("", "", text, false)) && TrimStartLf(text) == text
  {
    assert Find(text, m.start).None?;
    assert text[..0] == "" && text[0..] == text;
  }

  lemma LeaveOutEmpty(c: string, d: string, e: string)
    ensures ToCrLf("") + ToCrLf("") + c + d + e == c + d + e
  {
  }

  lemma NoTitle(text: string)
    requires text != "" && !IsWhitespace(text[0]) && text[0] != '#'
    ensures InsertIndex(text) == 0
  {
    var line := Lines(text)[0];
    assert line[0] == text[0];
    TrimKeepsStart(line);
    assert "# "[0] == '#';
  }

  lemma {:induction false} TrimKeepsStart(s: string)
    requires s != "" && !IsWhitespace(s[0])
    ensures Trim(s) != "" && Trim(s)[0] == s[0]
  {
    if IsWhitespace(s[|s| - 1]) {
      TrimKeepsStart(s[..|s| - 1]);
    }
  }

  lemma MixedIsCrLf(existing: string)
    requires existing == "a\r\nb\nc"
    ensures HasCrLf(existing)
  {
    HasCrLfIff(existing);
    assert CrLfAt(existing, 1);
  }

  lemma PlainStep(c: char, rest: string)
    ensures c != '\r' ==> ToLf([c] + rest) == [c] + ToLf(rest)
    ensures ToCrLf([c] + rest) == (if c == '\n' then "\r\n" else [c]) + ToCrLf(rest)
  {
    assert ([c] + rest)[1..] == rest;
  }

  lemma PairStep(rest: string)
    ensures ToLf("\r\n" + rest) == "\n" + ToLf(rest)
  {
    assert ("\r\n" + rest)[2..] == rest;
  }

  lemma MixedToLf(existing: string, text: string)
    requires existing == "a\r\nb\nc" && text == "a\nb\nc"
    ensures ToLf(existing) == text
  {
    PlainStep('c', "");
    PlainStep('\n', "c");
    PlainStep('b', "\nc");
    PairStep("b\nc");
    PlainStep('a', "\r\nb\nc");
  }

  lemma MixedBack(text: string, written: string)
    requires text == "a\nb\nc" && written == "a\r\nb\r\nc"
    ensures ToCrLf(text) == written
  {
    PlainStep('c', "");
    PlainStep('\n', "c");
    PlainStep('b', "\nc");
    PlainStep('\n', "b\nc");
    PlainStep('a', "\nb\nc");
  }

  lemma BlankLine(lfs: string, written: string)
    requires lfs == "\n\n" && written == "\r\n\r\n"
    ensures ToCrLf(lfs) == written
  {
    PlainStep('\n', "");
    PlainStep('\n', "\n");
  }
}
