/** Normalisation of changed paths, and the scope test on the normal form. */
module ChangedPaths {
  import opened Wrappers
  import opened Text
  import opened Lexical

  datatype Error = OutsideRepository | EscapesRepository | NamesRepositoryRoot

  /** The path seen from the canonical root, when it lies under it lexically. */
  function RelativeTo(root: seq<Part>, path: string): Option<seq<Part>> {
    var candidate := if "/" <= path then Components(path) else root + Components(path);
    if root <= candidate then Some(candidate[|root|..]) else None
  }

  /** No prefix of the path leads above its start. */
  ghost predicate NeverClimbs(parts: seq<Part>) {
    forall k | 0 <= k <= |parts| :: Balance(parts[..k]) >= 0
  }

  lemma WalkOneMore(parts: seq<Part>, i: nat)
    requires i < |parts|
    ensures Resolve(parts[..i + 1]) == Step(Resolve(parts[..i]), parts[i])
    ensures Balance(parts[..i + 1]) == Balance(parts[..i]) + (if parts[i].Up? then -1 else 1)
  {
    assert parts[..i + 1] == parts[..i] + [parts[i]];
    WalkConcat(Place(0, []), parts[..i], [parts[i]]);
    assert Walk(Resolve(parts[..i]), [parts[i]]) == Step(Resolve(parts[..i]), parts[i]);
    BalanceConcat(parts[..i], [parts[i]]);
  }

  lemma DepthOfPrefix(parts: seq<Part>)
    ensures Depth(Resolve(parts)) == Balance(parts)
  {
    WalkDepth(Place(0, []), parts);
  }

  /**
   * Normalisation succeeds exactly when the path lies under the root, no prefix of it climbs above the
   * root and it ends below the root; the result is where the path leads.
   */
  method NormalizeChangedPath(root: seq<Part>, path: string) returns (r: Result<string, Error>)
    ensures r.Ok? <==> RelativeTo(root, path).Some?
                       && NeverClimbs(RelativeTo(root, path).value) && Balance(RelativeTo(root, path).value) > 0
    ensures r.Ok? ==> Resolve(RelativeTo(root, path).value).ups == 0
                      && r.value == Print(Resolve(RelativeTo(root, path).value).names)
  {
    var relative := RelativeTo(root, path);
    if relative.None? {
      return Err(OutsideRepository);
    }
    var segments := Segments(relative.value);
    if segments.None? {
      return Err(EscapesRepository);
    }
    DepthOfPrefix(relative.value);
    if segments.value == [] {
      return Err(NamesRepositoryRoot);
    }
    r := Ok(Print(segments.value));
  }

  method Segments(parts: seq<Part>) returns (r: Option<seq<Part>>)
    ensures r.Some? <==> NeverClimbs(parts)
    ensures r.Some? ==> Resolve(parts) == Place(0, r.value)
  {
    var segments: seq<Part> := [];
    for i := 0 to |parts|
      invariant Resolve(parts[..i]) == Place(0, segments)
      invariant Balance(parts[..i]) == |segments|
      invariant forall k | 0 <= k <= i :: Balance(parts[..k]) >= 0
    {
      WalkOneMore(parts, i);
      match parts[i]
      case Name(_) =>
        segments := segments + [parts[i]];
      case Up =>
        if segments == [] {
          return None;
        }
        segments := segments[..|segments| - 1];
    }
    assert parts[..|parts|] == parts;
    r := Some(segments);
  }

  lemma {:induction false} StepKeepsNames(at: Place, parts: seq<Part>)
    requires AllNames(at.names) && AllValid(at.names) && AllValid(parts)
    ensures AllNames(Walk(at, parts).names) && AllValid(Walk(at, parts).names)
    decreases parts
  {
    if parts != [] {
      StepKeepsNames(Step(at, parts[0]), parts[1..]);
    }
  }

  lemma PrintedIsRelative(root: seq<Part>, names: seq<Part>)
    requires AllNames(names) && AllValid(names) && names != []
    ensures RelativeTo(root, Print(names)) == Some(names)
  {
    PrintReadsBack(names);
    var first := names[0].name;
    assert Shown(names)[0] == first;
    assert Print(names)[0] == first[0];
    assert first[0] in first;
    assert (root + names)[|root|..] == names;
  }

  lemma NamesNeverClimb(names: seq<Part>)
    requires AllNames(names)
    ensures NeverClimbs(names) && Balance(names) == |names|
  {
    forall k | 0 <= k <= |names| ensures Balance(names[..k]) >= 0 {
      BalanceBounds(names[..k]);
    }
    BalanceBounds(names);
  }

  /** A printed list of names is its own normal form, under any root. */
  lemma NamesAreNormal(root: seq<Part>, names: seq<Part>)
    requires AllNames(names) && AllValid(names) && names != []
    ensures RelativeTo(root, Print(names)) == Some(names) && NeverClimbs(names) && Balance(names) > 0
    ensures Resolve(names) == Place(0, names)
  {
    PrintedIsRelative(root, names);
    NamesNeverClimb(names);
    WalkDown(Place(0, []), names);
    assert [] + names == names;
  }

  /** What normalisation returns holds only names, and normalises to itself. */
  lemma NormalFormIsStable(root: seq<Part>, path: string)
    requires AllValid(root) && RelativeTo(root, path).Some?
    requires NeverClimbs(RelativeTo(root, path).value) && Balance(RelativeTo(root, path).value) > 0
    ensures var names := Resolve(RelativeTo(root, path).value).names;
            && AllNames(names) && AllValid(names) && names != [] && Components(Print(names)) == names
            && RelativeTo(root, Print(names)) == Some(names) && NeverClimbs(names) && Balance(names) > 0
            && Resolve(names).names == names
  {
    var relative := RelativeTo(root, path).value;
    StepKeepsNames(Place(0, []), relative);
    DepthOfPrefix(relative);
    var names := Resolve(relative).names;
    NamesAreNormal(root, names);
    PrintReadsBack(names);
  }

  // ---- scope --------------------------------------------------------------

  /** One of the two paths is, or lies under, the other. */
  predicate Related(a: string, b: string) {
    a == b || b + "/" <= a || a + "/" <= b
  }

  predicate PathMatchesScope(relPath: string, scopes: seq<string>) {
    scopes == [] || exists i | 0 <= i < |scopes| :: Related(relPath, scopes[i])
  }

  lemma {:induction false} ShownInjective(a: seq<Part>, b: seq<Part>)
    requires AllValid(a) && AllValid(b) && Shown(a) <= Shown(b)
    ensures a <= b
  {
    if a != [] {
      ShownReadsBack(a);
      ShownReadsBack(b);
      assert Shown(a)[0] == Shown(b)[0];
      assert a[0] == b[0];
      assert Shown(a)[1..] <= Shown(b)[1..];
      ShownInjective(a[1..], b[1..]);
      assert a == [a[0]] + a[1..] && b == [b[0]] + b[1..];
    }
  }

  lemma {:induction false} ShownConcat(a: seq<Part>, b: seq<Part>)
    ensures Shown(a + b) == Shown(a) + Shown(b)
  {
    if a == [] {
      assert a + b == b;
    } else {
      assert (a + b)[1..] == a[1..] + b;
      ShownConcat(a[1..], b);
    }
  }

  /** A printed path followed by a slash starts another one exactly when it is a proper prefix of it. */
  lemma UnderIsPrefix(a: seq<Part>, b: seq<Part>)
    requires AllValid(a) && AllValid(b) && a != [] && b != []
    ensures Print(a) + "/" <= Print(b) <==> a < b
  {
    ShownReadsBack(a);
    ShownReadsBack(b);
    if a < b {
      var rest := b[|a|..];
      assert b == a + rest;
      ShownReadsBack(rest);
      ShownConcat(a, rest);
      JoinConcat(Shown(a), Shown(rest), "/");
    }
    if Print(a) + "/" <= Print(b) {
      var rest := Print(b)[|Print(a)| + 1..];
      assert Print(b) == Print(a) + ['/'] + rest;
      SplitAtSeparator(Print(a), '/', rest);
      SplitJoin(Shown(a), '/');
      SplitJoin(Shown(b), '/');
      ShownInjective(a, b);
      assert |Shown(a)| < |Shown(b)|;
    }
  }

  /** On normal forms the string test says that one component list is a prefix of the other. */
  lemma ScopeTestIsComponentPrefix(a: seq<Part>, b: seq<Part>)
    requires AllValid(a) && AllValid(b) && a != [] && b != []
    ensures Related(Print(a), Print(b)) <==> a <= b || b <= a
  {
    UnderIsPrefix(a, b);
    UnderIsPrefix(b, a);
    PrintReadsBack(a);
    PrintReadsBack(b);
    assert a <= b && |a| == |b| ==> a == b[..|a|] == b;
    assert b <= a && |a| == |b| ==> b == a[..|b|] == a;
  }

  /** A normalised path is in scope exactly when it is above, below or equal to one of the scopes. */
  lemma InScopeIff(relPath: seq<Part>, scopes: seq<seq<Part>>, printed: seq<string>)
    requires AllValid(relPath) && relPath != [] && scopes != [] && |printed| == |scopes|
    requires forall i | 0 <= i < |scopes| :: AllValid(scopes[i]) && scopes[i] != [] && printed[i] == Print(scopes[i])
    ensures PathMatchesScope(Print(relPath), printed)
       <==> exists i | 0 <= i < |scopes| :: relPath <= scopes[i] || scopes[i] <= relPath
  {
    forall i | 0 <= i < |scopes|
      ensures Related(Print(relPath), printed[i]) <==> relPath <= scopes[i] || scopes[i] <= relPath
    {
      ScopeTestIsComponentPrefix(relPath, scopes[i]);
    }
  }
}
