/** What a slash-separated path consists of, which targets are links, and how a link is printed. */
module PathParts {
  import opened Wrappers
  import opened Lexical
  import opened RelativePath
  import opened ChangedPaths
  import opened Sorting
  import opened Text

  // ----- components -----

  /** What stands between two slashes: nothing for an empty piece or a dot, a parent step for two dots, or a name. */
  ghost function PartAt(pieces: seq<string>, i: nat): Option<Part> {
    if i >= |pieces| || pieces[i] == "" || pieces[i] == "." then None
    else if pieces[i] == ".." then Some(Up) else Some(Name(pieces[i]))
  }

  lemma {:induction false} SignificantLast(pieces: seq<string>, last: string)
    ensures Significant(pieces + [last])
         == Significant(pieces) + match PartAt([last], 0) case None => [] case Some(part) => [part]
  {
    if pieces == [] {
      assert pieces + [last] == [last];
      assert [last][1..] == [];
    } else {
      assert (pieces + [last])[1..] == pieces[1..] + [last];
      SignificantLast(pieces[1..], last);
    }
  }

  /** A path's components come from its pieces, in order. */
  lemma ComponentsAre(path: string)
    ensures Picks(Components(path), |Split(path, '/')|, (i: nat) => PartAt(Split(path, '/'), i))
  {
    var pieces := Split(path, '/');
    var pick: nat -> Option<Part> := (i: nat) => PartAt(Split(path, '/'), i);
    PartsOfPrefix(pieces, |pieces|, pick);
    assert pieces[..|pieces|] == pieces;
  }

  lemma {:induction false} PartsOfPrefix(pieces: seq<string>, n: nat, pick: nat -> Option<Part>)
    requires n <= |pieces| && forall i: nat :: pick(i) == PartAt(pieces, i)
    ensures Picks(Significant(pieces[..n]), n, pick)
  {
    if n == 0 {
      PicksNothing(pick);
    } else {
      var m := n - 1;
      PartsOfPrefix(pieces, m, pick);
      SignificantLast(pieces[..m], pieces[m]);
      assert pieces[..n] == pieces[..m] + [pieces[m]];
      PicksOneMore(Significant(pieces[..m]), m, pick, Significant(pieces[..n]));
    }
  }

  // ----- printing -----

  ghost function ShowPart(part: Part): string {
    match part case Up => ".." case Name(name) => name
  }

  /** Printed components stand between single slashes. */
  lemma PrintIs(parts: seq<Part>)
    ensures parts == [] ==> Print(parts) == ""
    ensures parts != [] ==>
              Print(parts) == ShowPart(parts[0]) + if |parts| == 1 then "" else "/" + Print(parts[1..])
  {
    if |parts| > 1 {
      assert Shown(parts) == [parts[0].Show()] + Shown(parts[1..]);
      ShownLength(parts);
      assert Shown(parts)[1..] == Shown(parts[1..]);
      assert parts[0].Show() + "/" + Print(parts[1..]) == parts[0].Show() + ("/" + Print(parts[1..]));
    } else if |parts| == 1 {
      assert Shown(parts) == [parts[0].Show()];
      assert ShowPart(parts[0]) + "" == ShowPart(parts[0]);
    }
  }

  lemma {:induction false} ShownLength(parts: seq<Part>)
    ensures |Shown(parts)| == |parts|
  {
    if parts != [] {
      ShownLength(parts[1..]);
    }
  }

  // ----- links -----

  ghost predicate StartsWith(s: string, start: string) {
    |start| <= |s| && s[..|start|] == start
  }

  /** A link that leads out of the repository, within the page, or to an absolute path. */
  ghost predicate External(target: string) {
    || StartsWith(target, "http://") || StartsWith(target, "https://") || StartsWith(target, "mailto:")
    || StartsWith(target, "#") || StartsWith(target, "/")
  }

  lemma StartIff(s: string, start: string)
    ensures StartsWith(s, start) <==> start <= s
  {
  }

  lemma ExternalIff(target: string)
    ensures External(target) <==> LooksLikeUrl(target) || "#" <= target || "/" <= target
  {
    StartIff(target, "http://");
    StartIff(target, "https://");
    StartIff(target, "mailto:");
    StartIff(target, "#");
    StartIff(target, "/");
  }

  lemma LinkBy(readme: string, target: string, external: bool, all: seq<Part>, dir: seq<Part>, rel: string)
    requires external <==> LooksLikeUrl(target) || "#" <= target || "/" <= target
    requires all == Components(readme) && dir == if all == [] then [] else all[..|all| - 1]
    requires rel == Print(RelativeParts(dir, Components(target)))
    ensures RelativeMarkdownPath(readme, target) == if external then target else if rel == "" then "." else rel
  {
  }

  /**
   * An external link is written as it stands. Every other link is relative to the README's directory, and a dot
   * stands for the directory itself.
   */
  lemma LinkIs(readme: string, target: string)
    ensures var all := Components(readme);
            var dir := if all == [] then [] else all[..|all| - 1];
            var rel := Print(RelativeParts(dir, Components(target)));
            RelativeMarkdownPath(readme, target)
            == if External(target) then target else if rel == "" then "." else rel
  {
    var all := Components(readme);
    var dir := if all == [] then [] else all[..|all| - 1];
    ExternalIff(target);
    LinkBy(readme, target, External(target), all, dir, Print(RelativeParts(dir, Components(target))));
  }

  // ----- changed paths -----

  /** A changed path is taken from the root if it starts with a slash, and from the repository otherwise. */
  lemma RelativeToIs(root: seq<Part>, path: string, parts: seq<Part>)
    ensures path != "" && path[0] == '/' ==>
              (RelativeTo(root, path) == Some(parts) <==> Components(path) == root + parts)
    ensures path == "" || path[0] != '/' ==> (RelativeTo(root, path) == Some(parts) <==> Components(path) == parts)
  {
    if path != "" && path[0] == '/' {
      assert path[..1] == "/";
      if Components(path) == root + parts {
        assert (root + parts)[|root|..] == parts && (root + parts)[..|root|] == root;
      }
    } else {
      assert root + Components(path) == root + Components(path);
      assert (root + Components(path))[|root|..] == Components(path);
    }
  }

  /** Two paths are related if they are equal or one is the other with a slash and more after it. */
  lemma RelatedIff(a: string, b: string)
    ensures Related(a, b)
       <==> || a == b
            || (|b| < |a| && a[..|b|] == b && a[|b|] == '/')
            || (|a| < |b| && b[..|a|] == a && b[|a|] == '/')
  {
    BelowIff(a, b);
    BelowIff(b, a);
  }

  /** No scopes mean everything; otherwise a path is in scope if it is related to one of them. */
  lemma InScopeMeans(relPath: string, scopes: seq<string>)
    ensures PathMatchesScope(relPath, scopes)
       <==> scopes == [] || exists scope :: scope in scopes && Related(relPath, scope)
  {
    if scope :| scope in scopes && Related(relPath, scope) {
      var i :| 0 <= i < |scopes| && scopes[i] == scope;
      assert Related(relPath, scopes[i]);
    }
  }
}
