/** Slash-separated paths, their components, and where a walk along components leads. */
module Lexical {
  import opened Text

  /** `Component::ParentDir` and `Component::Normal`. */
  datatype Part = Up | Name(name: string) {
    predicate Valid() {
      Name? ==> name != "" && name != "." && name != ".." && '/' !in name
    }

    function Show(): string {
      if Up? then ".." else name
    }
  }

  ghost predicate AllValid(parts: seq<Part>) {
    forall i | 0 <= i < |parts| :: parts[i].Valid()
  }

  /** `Path::components` of a relative path: empty and `.` components vanish. */
  function Components(path: string): (parts: seq<Part>)
    ensures AllValid(parts)
  {
    Significant(Split(path, '/'))
  }

  function Significant(pieces: seq<string>): (parts: seq<Part>)
    ensures (forall p | p in pieces :: '/' !in p) ==> AllValid(parts)
  {
    if pieces == [] then []
    else
      var rest := Significant(pieces[1..]);
      if pieces[0] == "" || pieces[0] == "." then rest
      else [if pieces[0] == ".." then Up else Name(pieces[0])] + rest
  }

  function Shown(parts: seq<Part>): seq<string> {
    if parts == [] then [] else [parts[0].Show()] + Shown(parts[1..])
  }

  /** Components joined with slashes. */
  function Print(parts: seq<Part>): string {
    Join(Shown(parts), "/")
  }

  lemma {:induction false} ShownReadsBack(parts: seq<Part>)
    requires AllValid(parts)
    ensures Significant(Shown(parts)) == parts
    ensures |Shown(parts)| == |parts| && forall p | p in Shown(parts) :: '/' !in p
  {
    if parts != [] {
      ShownReadsBack(parts[1..]);
      assert parts == [parts[0]] + parts[1..];
    }
  }

  /** Printing components and reading them back changes nothing. */
  lemma PrintReadsBack(parts: seq<Part>)
    requires AllValid(parts)
    ensures Components(Print(parts)) == parts
  {
    ShownReadsBack(parts);
    if parts != [] {
      SplitJoin(Shown(parts), '/');
    } else {
      SplitPlain("", '/');
      assert Significant([""]) == [];
    }
  }

  ghost predicate AllNames(parts: seq<Part>) {
    forall i | 0 <= i < |parts| :: parts[i].Name?
  }

  /** A place reached lexically: so many levels above the start, then down through `names`. */
  datatype Place = Place(ups: nat, names: seq<Part>)

  function Step(at: Place, part: Part): Place {
    if part.Name? then Place(at.ups, at.names + [part])
    else if at.names == [] then Place(at.ups + 1, [])
    else Place(at.ups, at.names[..|at.names| - 1])
  }

  function Walk(at: Place, parts: seq<Part>): Place
    decreases parts
  {
    if parts == [] then at else Walk(Step(at, parts[0]), parts[1..])
  }

  function Resolve(parts: seq<Part>): Place {
    Walk(Place(0, []), parts)
  }

  lemma {:induction false} WalkConcat(at: Place, a: seq<Part>, b: seq<Part>)
    ensures Walk(at, a + b) == Walk(Walk(at, a), b)
    decreases a
  {
    if a == [] {
      assert a + b == b;
    } else {
      assert (a + b)[1..] == a[1..] + b;
      WalkConcat(Step(at, a[0]), a[1..], b);
    }
  }

  lemma {:induction false} WalkDown(at: Place, names: seq<Part>)
    requires AllNames(names)
    ensures Walk(at, names) == Place(at.ups, at.names + names)
    decreases names
  {
    if names == [] {
      assert at.names + names == at.names;
    } else {
      WalkDown(Step(at, names[0]), names[1..]);
      assert at.names + [names[0]] + names[1..] == at.names + names;
    }
  }

  function Ups(n: nat): (parts: seq<Part>)
    ensures |parts| == n && forall i | 0 <= i < n :: parts[i] == Up
  {
    seq(n, _ => Up)
  }

  lemma {:induction false} WalkUp(at: Place, below: seq<Part>)
    ensures Walk(Place(at.ups, at.names + below), Ups(|below|)) == at
  {
    if below == [] {
      assert at.names + below == at.names;
    } else {
      var shorter := below[..|below| - 1];
      assert (at.names + below)[..|at.names + below| - 1] == at.names + shorter;
      assert Ups(|below|)[1..] == Ups(|shorter|);
      WalkUp(at, shorter);
    }
  }

  /** How far below the start a place is; negative above it. */
  function Depth(at: Place): int {
    |at.names| - at.ups
  }

  /** Names minus parent steps. */
  function Balance(parts: seq<Part>): int {
    if parts == [] then 0 else (if parts[0].Up? then -1 else 1) + Balance(parts[1..])
  }

  lemma {:induction false} WalkDepth(at: Place, parts: seq<Part>)
    ensures Depth(Walk(at, parts)) == Depth(at) + Balance(parts)
    decreases parts
  {
    if parts != [] {
      WalkDepth(Step(at, parts[0]), parts[1..]);
    }
  }

  lemma {:induction false} BalanceConcat(a: seq<Part>, b: seq<Part>)
    ensures Balance(a + b) == Balance(a) + Balance(b)
  {
    if a == [] {
      assert a + b == b;
    } else {
      assert (a + b)[1..] == a[1..] + b;
      BalanceConcat(a[1..], b);
    }
  }

  lemma {:induction false} BalanceBounds(parts: seq<Part>)
    ensures Balance(parts) <= |parts|
    ensures Balance(parts) == |parts| <==> AllNames(parts)
  {
    if parts != [] {
      BalanceBounds(parts[1..]);
    }
  }

  lemma {:induction false} BalanceUps(n: nat)
    ensures Balance(Ups(n)) == -(n as int)
  {
    if n > 0 {
      assert Ups(n)[1..] == Ups(n - 1);
      BalanceUps(n - 1);
    }
  }

  lemma {:induction false} UpsOnlyGrow(at: Place, parts: seq<Part>)
    ensures at.ups <= Walk(at, parts).ups
    decreases parts
  {
    if parts != [] {
      UpsOnlyGrow(Step(at, parts[0]), parts[1..]);
    }
  }

  /** The number of leading names two lists share. */
  function Common(a: seq<Part>, b: seq<Part>): (n: nat)
    ensures n <= |a| && n <= |b| && forall i | 0 <= i < n :: a[i] == b[i]
    ensures n < |a| && n < |b| ==> a[n] != b[n]
  {
    if a == [] || b == [] || a[0] != b[0] then 0 else 1 + Common(a[1..], b[1..])
  }

  lemma CommonIs(a: seq<Part>, b: seq<Part>, n: nat)
    requires n <= |a| && n <= |b| && forall i | 0 <= i < n :: a[i] == b[i]
    requires n < |a| && n < |b| ==> a[n] != b[n]
    ensures Common(a, b) == n
  {
  }

  /** The number of edges between two places under the same ancestor. */
  function Gap(a: seq<Part>, b: seq<Part>): nat {
    |a| + |b| - 2 * Common(a, b)
  }

  lemma GapOfStep(a: seq<Part>, x: Part, b: seq<Part>)
    ensures Gap(a, b) <= Gap(a + [x], b) + 1
    ensures Gap(a + [x], b) <= Gap(a, b) + 1
  {
  }

  /** No walk is shorter than the gap between its ends. */
  lemma {:induction false} WalkCoversGap(at: Place, parts: seq<Part>)
    requires Walk(at, parts).ups == at.ups
    ensures Gap(at.names, Walk(at, parts).names) <= |parts|
    decreases parts
  {
    var end := Walk(at, parts).names;
    if parts == [] {
      CommonIs(end, end, |end|);
    } else {
      var next := Step(at, parts[0]);
      UpsOnlyGrow(next, parts[1..]);
      WalkCoversGap(next, parts[1..]);
      if parts[0].Up? {
        var last := at.names[|at.names| - 1];
        assert at.names == next.names + [last];
        GapOfStep(next.names, last, end);
      } else {
        GapOfStep(at.names, parts[0], end);
      }
    }
  }
}
