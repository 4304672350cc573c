/** How the texts of a proof verification are classified, pattern by pattern. */
module VerdictTexts {
  import opened Wrappers
  import opened ProofVerdict
  import opened Text

  ghost predicate SomeHolds(texts: seq<string>, pattern: string) {
    exists i, p: nat :: 0 <= i < |texts| && OccursAt(texts[i], pattern, p)
  }

  lemma {:induction false} AnyContainsIff(texts: seq<string>, pattern: string)
    ensures AnyContains(texts, pattern) <==> SomeHolds(texts, pattern)
  {
    if texts != [] {
      AnyContainsIff(texts[1..], pattern);
      ContainsIffOccurs(texts[0], pattern);
      if i, p: nat :| 0 <= i < |texts| && OccursAt(texts[i], pattern, p) {
        assert i > 0 ==> texts[1..][i - 1] == texts[i];
      }
      if i, p: nat :| 0 <= i < |texts[1..]| && OccursAt(texts[1..][i], pattern, p) {
        assert texts[i + 1] == texts[1..][i];
      }
    }
  }

  /** The worst pattern that any text holds decides. */
  lemma VerdictIs(texts: seq<string>)
    ensures var v := ClassifyVerdict(texts);
            && (v == Pass <==> texts == [])
            && (v == Blocked <==> SomeHolds(texts, "missing") || SomeHolds(texts, "unverified rule coverage"))
            && (v == Stale <==> && !SomeHolds(texts, "missing") && !SomeHolds(texts, "unverified rule coverage")
                                && (SomeHolds(texts, "mismatch") || SomeHolds(texts, "stale")))
            && (v == Incomplete <==>
                  && !SomeHolds(texts, "missing") && !SomeHolds(texts, "unverified rule coverage")
                  && !SomeHolds(texts, "mismatch") && !SomeHolds(texts, "stale")
                  && SomeHolds(texts, "exited with status"))
  {
    AnyContainsIff(texts, "missing");
    AnyContainsIff(texts, "missing required");
    AnyContainsIff(texts, "unverified rule coverage");
    AnyContainsIff(texts, "mismatch");
    AnyContainsIff(texts, "stale");
    AnyContainsIff(texts, "exited with status");
    RequiredIsMissing(texts, "missing", " required", "missing required");
  }

  /** What holds a longer pattern holds its beginning. */
  lemma RequiredIsMissing(texts: seq<string>, start: string, more: string, whole: string)
    requires whole == start + more
    ensures SomeHolds(texts, whole) ==> SomeHolds(texts, start)
  {
    if i, p: nat :| 0 <= i < |texts| && OccursAt(texts[i], whole, p) {
      OccursIff(texts[i], whole, p);
      OccursIff(texts[i], start, p);
      assert forall k | 0 <= k < |start| :: start[k] == whole[k];
      assert OccursAt(texts[i], start, p);
    }
  }

  lemma VerdictsInOrder()
    ensures Badness(Pass) < Badness(Advisory) < Badness(Incomplete) < Badness(Stale) < Badness(Blocked)
  {
  }

  /** A manifest that one side lacks is written with the word that blocks, though its kind alone is only stale. */
  lemma AbsentManifestBlocks(name: string, recorded: Option<string>, now: Option<string>, text: string)
    requires text == IssueText(ManifestMismatch(name, recorded, now))
    requires recorded == None || now == None
    ensures ClassifyVerdict([text]) == Blocked
  {
    var issue := ManifestMismatch(name, recorded, now);
    var front, back := Lead(issue) + Keyword(issue), " for " + name + ": evidence ";
    var evidence, current := Quoted(OrMissing(recorded)), Quoted(OrMissing(now));
    Halves(front, back, evidence, " vs current ", current, text);
    if recorded == None {
      QuotedHolds("missing", front + back, " vs current " + current, text);
    } else {
      QuotedHolds("missing", front + back + evidence + " vs current ", "", text);
    }
    OneTextVerdict(text);
  }

  lemma Halves(front: string, back: string, evidence: string, between: string, current: string, text: string)
    requires text == front + (back + evidence + between + current)
    ensures text == front + back + evidence + (between + current)
    ensures text == front + back + evidence + between + current + ""
  {
  }

  lemma QuotedHolds(word: string, before: string, after: string, text: string)
    requires text == before + Quoted(word) + after
    ensures Contains(text, word)
  {
    assert text == (before + "`") + word + ("`" + after);
    ContainsInConcat(before + "`", word, "`" + after);
  }
}
