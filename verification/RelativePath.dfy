/** The relative links of the README badge. */
module RelativePath {
  import opened Lexical

  function RelativeParts(base: seq<Part>, target: seq<Part>): seq<Part> {
    var common := Common(base, target);
    Ups(|base| - common) + target[common..]
  }

  method RelativePath(base: string, target: string) returns (rel: string)
    ensures rel == Print(RelativeParts(Components(base), Components(target)))
  {
    var parts := RelativeOf(Components(base), Components(target));
    rel := Print(parts);
  }

  method RelativeOf(base: seq<Part>, target: seq<Part>) returns (parts: seq<Part>)
    ensures parts == RelativeParts(base, target)
  {
    var common := 0;
    while common < |base| && common < |target| && base[common] == target[common]
      invariant common <= |base| && common <= |target|
      invariant forall i | 0 <= i < common :: base[i] == target[i]
    {
      common := common + 1;
    }
    CommonIs(base, target, common);
    parts := [];
    for i := common to |base|
      invariant |parts| == i - common && forall j | 0 <= j < |parts| :: parts[j] == Up
    {
      parts := parts + [Up];
    }
    ghost var ups := parts;
    for i := common to |target|
      invariant parts == ups + target[common..i]
    {
      parts := parts + [target[i]];
    }
    assert ups == Ups(|base| - common);
  }

  /** What is printed reads back as the computed components. */
  lemma RelativePathReadsBack(base: seq<Part>, target: seq<Part>)
    requires AllValid(target)
    ensures Components(Print(RelativeParts(base, target))) == RelativeParts(base, target)
  {
    PrintReadsBack(RelativeParts(base, target));
  }

  /** Going down by names, back up as many levels and on along `onward` is going along `onward`. */
  lemma DetourCancels(top: Place, names: seq<Part>, onward: seq<Part>)
    requires AllNames(names)
    ensures Walk(Walk(top, names), Ups(|names|) + onward) == Walk(top, onward)
  {
    WalkDown(top, names);
    WalkUp(top, names);
    WalkConcat(Walk(top, names), Ups(|names|), onward);
  }

  /** A parent step on the way down cannot be undone by going up. */
  lemma DetourFails(top: Place, parts: seq<Part>, onward: seq<Part>)
    requires !AllNames(parts)
    ensures Walk(Walk(top, parts), Ups(|parts|) + onward) != Walk(top, onward)
  {
    BalanceBounds(parts);
    BalanceUps(|parts|);
    BalanceConcat(Ups(|parts|), onward);
    WalkDepth(top, parts);
    WalkDepth(Walk(top, parts), Ups(|parts|) + onward);
    WalkDepth(top, onward);
  }

  lemma Decompose(base: seq<Part>, target: seq<Part>) returns (shared: seq<Part>, b: seq<Part>, t: seq<Part>)
    ensures base == shared + b && target == shared + t
    ensures b == base[Common(base, target)..] && t == target[Common(base, target)..]
    ensures b != [] && t != [] ==> b[0] != t[0]
    ensures RelativeParts(base, target) == Ups(|b|) + t
  {
    var common := Common(base, target);
    shared, b, t := base[..common], base[common..], target[common..];
  }

  /**
   * Walking the relative path from the base leads where the target leads, exactly when the part of the
   * base that the target does not share has no parent step.
   */
  lemma RelativePathIsCorrect(base: seq<Part>, target: seq<Part>)
    ensures Walk(Resolve(base), RelativeParts(base, target)) == Resolve(target)
       <==> AllNames(base[Common(base, target)..])
  {
    var shared, b, t := Decompose(base, target);
    WalkConcat(Place(0, []), shared, b);
    WalkConcat(Place(0, []), shared, t);
    if AllNames(b) {
      DetourCancels(Resolve(shared), b, t);
    } else {
      DetourFails(Resolve(shared), b, t);
    }
  }

  lemma GapBelow(top: seq<Part>, a: seq<Part>, b: seq<Part>)
    requires a != [] && b != [] ==> a[0] != b[0]
    ensures Gap(top + a, top + b) == |a| + |b|
  {
    var from, to := top + a, top + b;
    assert from[..|top|] == top == to[..|top|];
    CommonIs(from, to, |top|);
  }

  lemma ShortestBelow(top: Place, a: seq<Part>, b: seq<Part>, walk: seq<Part>)
    requires a != [] && b != [] ==> a[0] != b[0]
    requires Walk(Place(top.ups, top.names + a), walk) == Place(top.ups, top.names + b)
    ensures |a| + |b| <= |walk|
  {
    WalkCoversGap(Place(top.ups, top.names + a), walk);
    GapBelow(top.names, a, b);
  }

  lemma ResolveBelow(shared: seq<Part>, names: seq<Part>)
    requires AllNames(names)
    ensures Resolve(shared + names) == Place(Resolve(shared).ups, Resolve(shared).names + names)
  {
    WalkConcat(Place(0, []), shared, names);
    WalkDown(Resolve(shared), names);
  }

  lemma ShortestFrom(shared: seq<Part>, a: seq<Part>, b: seq<Part>, walk: seq<Part>)
    requires AllNames(a) && AllNames(b) && (a != [] && b != [] ==> a[0] != b[0])
    requires Walk(Resolve(shared + a), walk) == Resolve(shared + b)
    ensures |a| + |b| <= |walk|
  {
    ResolveBelow(shared, a);
    ResolveBelow(shared, b);
    ShortestBelow(Resolve(shared), a, b, walk);
  }

  /** When neither side has a parent step beyond the shared part, no walk between the two is shorter. */
  lemma RelativePathIsShortest(base: seq<Part>, target: seq<Part>, walk: seq<Part>)
    requires AllNames(base[Common(base, target)..]) && AllNames(target[Common(base, target)..])
    requires Walk(Resolve(base), walk) == Resolve(target)
    ensures |RelativeParts(base, target)| <= |walk|
  {
    var shared, b, t := Decompose(base, target);
    ShortestFrom(shared, b, t, walk);
  }

  /** A base that climbs and a target that does not: the link is wrong. */
  lemma ClimbingBaseIsWrong()
    ensures var base, target := [Up], [Name("a")];
            Walk(Resolve(base), RelativeParts(base, target)) != Resolve(target)
  {
  }

  // ---- the link written in a README ---------------------------------------

  predicate LooksLikeUrl(value: string) {
    "http://" <= value || "https://" <= value || "mailto:" <= value
  }

  /** `Path::parent`: all components but the last. */
  function Parent(parts: seq<Part>): seq<Part> {
    if parts == [] then [] else parts[..|parts| - 1]
  }

  /** The link from a README to a target path; other targets are left alone. */
  function RelativeMarkdownPath(readme: string, target: string): string {
    if LooksLikeUrl(target) || "#" <= target || "/" <= target then target
    else
      var rel := Print(RelativeParts(Parent(Components(readme)), Components(target)));
      if rel == "" then "." else rel
  }

  /** A relative link, followed from the README's directory, leads to the target. */
  lemma MarkdownLinkIsCorrect(readme: string, target: string)
    requires !LooksLikeUrl(target) && !("#" <= target) && !("/" <= target)
    ensures var dir, parts := Parent(Components(readme)), Components(target);
            Walk(Resolve(dir), Components(RelativeMarkdownPath(readme, target))) == Resolve(parts)
            <==> AllNames(dir[Common(dir, parts)..])
  {
    var dir, t := Parent(Components(readme)), Components(target);
    var parts := RelativeParts(dir, t);
    RelativePathIsCorrect(dir, t);
    RelativePathReadsBack(dir, t);
    DotHasNoComponents();
  }

  lemma DotHasNoComponents()
    ensures Components(".") == [] && Components("") == []
  {
  }
}
