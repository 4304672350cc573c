/** The standard library's stable sort, deduplication and ordered-set iteration. */
module Sorting {
  import opened Text
  import opened Wrappers

  ghost predicate TotalPreorder<T(!new)>(le: (T, T) -> bool) {
    && (forall x, y :: le(x, y) || le(y, x))
    && (forall x, y, z :: le(x, y) && le(y, z) ==> le(x, z))
  }

  ghost predicate Antisymmetric<T(!new)>(le: (T, T) -> bool) {
    forall x, y :: le(x, y) && le(y, x) ==> x == y
  }

  lemma StringLeIsOrder()
    ensures TotalPreorder(StringLe) && Antisymmetric(StringLe)
  {
    forall a, b ensures StringLe(a, b) || StringLe(b, a) {
      StringLeTotal(a, b);
    }
    forall a, b, c | StringLe(a, b) && StringLe(b, c) ensures StringLe(a, c) {
      StringLeTransitive(a, b, c);
    }
    forall a, b | StringLe(a, b) && StringLe(b, a) ensures a == b {
      StringLeAntisymmetric(a, b);
    }
  }

  ghost predicate Sorted<T>(xs: seq<T>, le: (T, T) -> bool) {
    forall i, j | 0 <= i < j < |xs| :: le(xs[i], xs[j])
  }

  predicate NoDup<T(==)>(xs: seq<T>) {
    forall i, j | 0 <= i < j < |xs| :: xs[i] != xs[j]
  }

  function Insert<T>(x: T, xs: seq<T>, le: (T, T) -> bool): seq<T> {
    if xs == [] || le(x, xs[0]) then [x] + xs else [xs[0]] + Insert(x, xs[1..], le)
  }

  /** Stable: an element is placed before the equal ones that followed it. */
  function Sort<T>(xs: seq<T>, le: (T, T) -> bool): seq<T> {
    if xs == [] then [] else Insert(xs[0], Sort(xs[1..], le), le)
  }

  lemma {:induction false} InsertElements<T>(x: T, xs: seq<T>, le: (T, T) -> bool)
    ensures multiset(Insert(x, xs, le)) == multiset{x} + multiset(xs)
    ensures forall y :: y in Insert(x, xs, le) <==> y == x || y in xs
  {
    if xs != [] {
      assert xs == [xs[0]] + xs[1..];
      if !le(x, xs[0]) {
        InsertElements(x, xs[1..], le);
      }
    }
  }

  lemma {:induction false} SortElements<T>(xs: seq<T>, le: (T, T) -> bool)
    ensures multiset(Sort(xs, le)) == multiset(xs)
    ensures |Sort(xs, le)| == |xs|
    ensures forall y :: y in Sort(xs, le) <==> y in xs
  {
    if xs != [] {
      assert xs == [xs[0]] + xs[1..];
      SortElements(xs[1..], le);
      InsertElements(xs[0], Sort(xs[1..], le), le);
    }
    assert |multiset(Sort(xs, le))| == |multiset(xs)|;
  }

  lemma {:induction false} InsertSorted<T(!new)>(x: T, xs: seq<T>, le: (T, T) -> bool)
    requires TotalPreorder(le) && Sorted(xs, le)
    ensures Sorted(Insert(x, xs, le), le)
  {
    if xs != [] && !le(x, xs[0]) {
      InsertSorted(x, xs[1..], le);
      InsertElements(x, xs[1..], le);
      var rest := Insert(x, xs[1..], le);
      forall j | 0 <= j < |rest| ensures le(xs[0], rest[j]) {
        assert rest[j] in rest;
      }
    }
  }

  lemma {:induction false} SortSorted<T(!new)>(xs: seq<T>, le: (T, T) -> bool)
    requires TotalPreorder(le)
    ensures Sorted(Sort(xs, le), le)
  {
    if xs != [] {
      SortSorted(xs[1..], le);
      InsertSorted(xs[0], Sort(xs[1..], le), le);
    }
  }

  /** `BTreeSet::from_iter(xs).into_iter()` and `sort` followed by `dedup`. */
  function SortDedup<T(==)>(xs: seq<T>, le: (T, T) -> bool): seq<T> {
    Dedup(Sort(xs, le))
  }

  /** `Vec::dedup`: drops an element equal to the one before it. */
  function Dedup<T(==)>(xs: seq<T>): seq<T> {
    if |xs| < 2 then xs
    else if xs[0] == xs[1] then Dedup(xs[1..])
    else [xs[0]] + Dedup(xs[1..])
  }

  lemma {:induction false} DedupElements<T>(xs: seq<T>)
    ensures forall y :: y in Dedup(xs) <==> y in xs
    ensures xs != [] ==> Dedup(xs) != [] && Dedup(xs)[0] == xs[0]
  {
    if |xs| >= 2 {
      DedupElements(xs[1..]);
      assert xs == [xs[0]] + xs[1..];
    }
  }

  lemma {:induction false} DedupStrict<T(!new)>(xs: seq<T>, le: (T, T) -> bool)
    requires TotalPreorder(le) && Antisymmetric(le) && Sorted(xs, le)
    ensures Sorted(Dedup(xs), le) && NoDup(Dedup(xs))
  {
    if |xs| >= 2 {
      DedupStrict(xs[1..], le);
      DedupElements(xs[1..]);
      if xs[0] != xs[1] {
        var rest := Dedup(xs[1..]);
        forall j | 0 <= j < |rest| ensures le(xs[0], rest[j]) && xs[0] != rest[j] {
          assert rest[j] in xs[1..];
          var k :| 1 <= k < |xs| && xs[k] == rest[j];
          assert le(xs[1], xs[k]);
        }
      }
    }
  }

  lemma SortDedupSpec<T(!new)>(xs: seq<T>, le: (T, T) -> bool)
    requires TotalPreorder(le) && Antisymmetric(le)
    ensures Sorted(SortDedup(xs, le), le) && NoDup(SortDedup(xs, le))
    ensures forall y :: y in SortDedup(xs, le) <==> y in xs
  {
    SortSorted(xs, le);
    SortElements(xs, le);
    DedupStrict(Sort(xs, le), le);
    DedupElements(Sort(xs, le));
  }

  lemma NoDupHead<T>(xs: seq<T>)
    requires xs != [] && NoDup(xs)
    ensures xs[0] !in xs[1..] && NoDup(xs[1..])
  {
  }

  /** A strictly sorted list is determined by its set of elements. */
  lemma {:induction false} StrictlySortedUnique<T(!new)>(xs: seq<T>, ys: seq<T>, le: (T, T) -> bool)
    requires TotalPreorder(le) && Antisymmetric(le)
    requires Sorted(xs, le) && NoDup(xs) && Sorted(ys, le) && NoDup(ys)
    requires forall z :: z in xs <==> z in ys
    ensures xs == ys
  {
    assert xs != [] ==> xs[0] in ys;
    assert ys != [] ==> ys[0] in xs;
    if xs != [] {
      assert xs[0] == ys[0];
      forall z ensures z in xs[1..] <==> z in ys[1..] {
        NoDupHead(xs);
        NoDupHead(ys);
        assert z in xs <==> z in ys;
        assert z in [xs[0]] + xs[1..] <==> z in [ys[0]] + ys[1..] by {
          assert xs == [xs[0]] + xs[1..] && ys == [ys[0]] + ys[1..];
        }
      }
      StrictlySortedUnique(xs[1..], ys[1..], le);
      assert xs == [xs[0]] + xs[1..] && ys == [ys[0]] + ys[1..];
    }
  }

  /** Keeps the first of each repeated element. */
  function Distinct<T(==)>(xs: seq<T>): seq<T> {
    if xs == [] then []
    else
      var rest := Distinct(xs[..|xs| - 1]);
      if xs[|xs| - 1] in rest then rest else rest + [xs[|xs| - 1]]
  }

  lemma {:induction false} DistinctSpec<T>(xs: seq<T>)
    ensures NoDup(Distinct(xs))
    ensures forall x :: x in Distinct(xs) <==> x in xs
  {
    if xs != [] {
      var n := |xs| - 1;
      DistinctSpec(xs[..n]);
      assert xs == xs[..n] + [xs[n]];
    }
  }

  /** `Vec::retain`: drops the banned elements. */
  function Without(xs: seq<string>, banned: seq<string>): seq<string> {
    if xs == [] then []
    else
      var n := |xs| - 1;
      Without(xs[..n], banned) + if xs[n] in banned then [] else [xs[n]]
  }

  lemma {:induction false} WithoutElements(xs: seq<string>, banned: seq<string>)
    ensures forall x :: x in Without(xs, banned) <==> x in xs && x !in banned
  {
    if xs != [] {
      var n := |xs| - 1;
      WithoutElements(xs[..n], banned);
      assert xs == xs[..n] + [xs[n]];
    }
  }

  ghost function Elements(xs: seq<string>): set<string> {
    set x | x in xs
  }

  /** `xs` lists a set in order, without repetition. */
  ghost predicate ListsSet(xs: seq<string>, s: set<string>) {
    Sorted(xs, StringLe) && NoDup(xs) && forall x :: x in xs <==> x in s
  }

  lemma ListsSetUnique(xs: seq<string>, ys: seq<string>, s: set<string>)
    requires ListsSet(xs, s) && ListsSet(ys, s)
    ensures xs == ys
  {
    StringLeIsOrder();
    StrictlySortedUnique(xs, ys, StringLe);
  }

  /** A list has as many distinct elements as entries exactly when it repeats none. */
  lemma {:induction false} DistinctCount<T>(xs: seq<T>)
    ensures |set x | x in xs| <= |xs|
    ensures |set x | x in xs| == |xs| <==> NoDup(xs)
  {
    if xs != [] {
      DistinctCount(xs[1..]);
      var rest := set x | x in xs[1..];
      assert xs == [xs[0]] + xs[1..];
      assert (set x | x in xs) == rest + {xs[0]};
      if xs[0] in rest {
        assert rest + {xs[0]} == rest;
        var k :| 0 <= k < |xs| - 1 && xs[1..][k] == xs[0];
        assert xs[0] == xs[k + 1];
      } else {
        assert NoDup(xs[1..]) ==> NoDup(xs) by {
          if NoDup(xs[1..]) {
            forall i, j | 0 <= i < j < |xs| ensures xs[i] != xs[j] {
              if i == 0 {
                assert xs[j] == xs[1..][j - 1];
              } else {
                assert xs[i] == xs[1..][i - 1] && xs[j] == xs[1..][j - 1];
              }
            }
          }
        }
        assert NoDup(xs) ==> NoDup(xs[1..]);
      }
    }
  }

  /** The first element satisfying `p`. */
  function First<T>(xs: seq<T>, p: T -> bool): Option<T> {
    if xs == [] then None else if p(xs[0]) then Some(xs[0]) else First(xs[1..], p)
  }

  /** The earliest of the least elements satisfying `p`. */
  function Least<T>(xs: seq<T>, le: (T, T) -> bool, p: T -> bool): Option<T> {
    if xs == [] then None
    else
      var rest := Least(xs[1..], le, p);
      if p(xs[0]) && (rest.None? || le(xs[0], rest.value)) then Some(xs[0]) else rest
  }

  /** `xs[j]` is least among the elements satisfying `p`, and strictly below the earlier ones. */
  ghost predicate IsLeastAt<T>(xs: seq<T>, le: (T, T) -> bool, p: T -> bool, j: nat) {
    && j < |xs| && p(xs[j])
    && (forall k | 0 <= k < |xs| && p(xs[k]) :: le(xs[j], xs[k]))
    && (forall k | 0 <= k < j && p(xs[k]) :: !le(xs[k], xs[j]))
  }

  lemma {:induction false} LeastIsLeast<T(!new)>(xs: seq<T>, le: (T, T) -> bool, p: T -> bool)
    requires TotalPreorder(le)
    ensures match Least(xs, le, p)
            case None => forall x | x in xs :: !p(x)
            case Some(v) => exists j: nat :: IsLeastAt(xs, le, p, j) && xs[j] == v
  {
    if xs != [] {
      assert xs == [xs[0]] + xs[1..];
      LeastIsLeast(xs[1..], le, p);
      var rest := Least(xs[1..], le, p);
      if rest.Some? {
        var j: nat :| IsLeastAt(xs[1..], le, p, j) && xs[1..][j] == rest.value;
        assert forall k | 1 <= k < |xs| && p(xs[k]) :: xs[k] == xs[1..][k - 1];
        if p(xs[0]) && le(xs[0], rest.value) {
          assert IsLeastAt(xs, le, p, 0);
        } else {
          assert IsLeastAt(xs, le, p, j + 1);
        }
      } else if p(xs[0]) {
        assert forall k | 1 <= k < |xs| :: xs[k] in xs[1..];
        assert IsLeastAt(xs, le, p, 0);
      }
    }
  }

  lemma {:induction false} FirstOfInsert<T(!new)>(x: T, xs: seq<T>, le: (T, T) -> bool, p: T -> bool)
    requires TotalPreorder(le) && Sorted(xs, le)
    ensures First(Insert(x, xs, le), p)
         == (if p(x) && (First(xs, p).None? || le(x, First(xs, p).value)) then Some(x) else First(xs, p))
  {
    if xs != [] {
      if le(x, xs[0]) {
        assert ([x] + xs)[1..] == xs;
        FirstInSorted(xs, le, p);
      } else {
        FirstOfInsert(x, xs[1..], le, p);
        assert Insert(x, xs, le)[1..] == Insert(x, xs[1..], le);
      }
    }
  }

  lemma {:induction false} FirstInSorted<T(!new)>(xs: seq<T>, le: (T, T) -> bool, p: T -> bool)
    requires TotalPreorder(le) && Sorted(xs, le) && xs != []
    ensures First(xs, p).Some? ==> le(xs[0], First(xs, p).value)
  {
    assert le(xs[0], xs[0]);
    if !p(xs[0]) && |xs| > 1 {
      FirstInSorted(xs[1..], le, p);
      assert le(xs[0], xs[1]);
    }
  }

  /** Stability: what sorting brings to the front of a class is the class's earliest least element. */
  lemma {:induction false} SortIsStable<T(!new)>(xs: seq<T>, le: (T, T) -> bool, p: T -> bool)
    requires TotalPreorder(le)
    ensures First(Sort(xs, le), p) == Least(xs, le, p)
  {
    if xs != [] {
      SortIsStable(xs[1..], le, p);
      SortSorted(xs[1..], le);
      FirstOfInsert(xs[0], Sort(xs[1..], le), le, p);
    }
  }

  lemma RearrangedNoDup<T>(xs: seq<T>, ys: seq<T>)
    requires NoDup(xs) && |xs| == |ys| && forall x :: x in xs <==> x in ys
    ensures NoDup(ys)
  {
    DistinctCount(xs);
    DistinctCount(ys);
    assert (set x | x in xs) == (set y | y in ys);
  }

  /** Sorting repeats an element no more than its input does. */
  lemma SortKeepsNoDup<T>(xs: seq<T>, le: (T, T) -> bool)
    requires NoDup(xs)
    ensures NoDup(Sort(xs, le))
  {
    SortElements(xs, le);
    RearrangedNoDup(xs, Sort(xs, le));
  }

  // ----- lists picked from positions -----

  ghost predicate Increasing(at: seq<nat>) {
    forall k, l | 0 <= k < l < |at| :: at[k] < at[l]
  }

  /** The positions below `n` that `pick` has something for. */
  ghost predicate Positions<T>(at: seq<nat>, n: nat, pick: nat -> Option<T>) {
    Increasing(at) && forall i: nat :: i in at <==> i < n && pick(i).Some?
  }

  ghost function PickedAt<T>(at: seq<nat>, pick: nat -> Option<T>): seq<Option<T>> {
    seq(|at|, k requires 0 <= k < |at| => pick(at[k]))
  }

  ghost function Somes<T>(xs: seq<T>): seq<Option<T>> {
    seq(|xs|, k requires 0 <= k < |xs| => Some(xs[k]))
  }

  /** `out` lists what `pick` has for the positions below `n`, in order. */
  ghost predicate Picks<T>(out: seq<T>, n: nat, pick: nat -> Option<T>) {
    exists at: seq<nat> :: Positions(at, n, pick) && Somes(out) == PickedAt(at, pick)
  }

  lemma PicksNothing<T>(pick: nat -> Option<T>)
    ensures Picks([], 0, pick)
  {
    var at: seq<nat> := [];
    assert Positions(at, 0, pick) && Somes([]) == PickedAt(at, pick);
  }

  lemma PicksOneMore<T>(out: seq<T>, n: nat, pick: nat -> Option<T>, next: seq<T>)
    requires Picks(out, n, pick)
    requires next == match pick(n) case None => out case Some(x) => out + [x]
    ensures Picks(next, n + 1, pick)
  {
    var at :| Positions(at, n, pick) && Somes(out) == PickedAt(at, pick);
    if pick(n).Some? {
      OneMorePosition(at, n, pick);
      assert Somes(next) == Somes(out) + [pick(n)];
      assert PickedAt(at + [n], pick) == PickedAt(at, pick) + [pick(n)];
    } else {
      SamePositions(at, n, pick);
    }
  }

  lemma OneMorePosition<T>(at: seq<nat>, n: nat, pick: nat -> Option<T>)
    requires Positions(at, n, pick) && pick(n).Some?
    ensures Positions(at + [n], n + 1, pick)
  {
    forall k, l | 0 <= k < l < |at| + 1 ensures (at + [n])[k] < (at + [n])[l] {
      assert at[k] in at;
    }
  }

  lemma SamePositions<T>(at: seq<nat>, n: nat, pick: nat -> Option<T>)
    requires Positions(at, n, pick) && pick(n).None?
    ensures Positions(at, n + 1, pick)
  {
  }

  /** What is picked is determined. */
  lemma PicksUnique<T>(out: seq<T>, other: seq<T>, n: nat, pick: nat -> Option<T>)
    requires Picks(out, n, pick) && Picks(other, n, pick)
    ensures out == other
  {
    var at :| Positions(at, n, pick) && Somes(out) == PickedAt(at, pick);
    var from :| Positions(from, n, pick) && Somes(other) == PickedAt(from, pick);
    PositionsUnique(at, from, n, pick);
    assert |out| == |Somes(out)| == |Somes(other)| == |other|;
    forall k | 0 <= k < |out| ensures out[k] == other[k] {
      assert Somes(out)[k] == Somes(other)[k];
    }
  }

  lemma PositionsUnique<T>(at: seq<nat>, from: seq<nat>, n: nat, pick: nat -> Option<T>)
    requires Positions(at, n, pick) && Positions(from, n, pick)
    ensures at == from
  {
    StrictlySortedUnique(at, from, (i: nat, j: nat) => i <= j);
  }

  ghost function FirstSeen<T>(xs: seq<T>, i: nat): Option<T> {
    if i < |xs| && xs[i] !in xs[..i] then Some(xs[i]) else None
  }

  /** Only first occurrences are kept, in order. */
  lemma DistinctPicks<T>(xs: seq<T>)
    ensures Picks(Distinct(xs), |xs|, (i: nat) => FirstSeen(xs, i))
  {
    var pick: nat -> Option<T> := (i: nat) => FirstSeen(xs, i);
    DistinctOfPrefix(xs, |xs|, pick);
    assert xs[..|xs|] == xs;
  }

  lemma {:induction false} DistinctOfPrefix<T>(xs: seq<T>, n: nat, pick: nat -> Option<T>)
    requires n <= |xs| && forall i: nat :: pick(i) == FirstSeen(xs, i)
    ensures Picks(Distinct(xs[..n]), n, pick)
  {
    if n == 0 {
      PicksNothing(pick);
    } else {
      var m := n - 1;
      DistinctOfPrefix(xs, m, pick);
      DistinctSpec(xs[..m]);
      assert xs[..n][..m] == xs[..m] && xs[..n][m] == xs[m];
      PicksOneMore(Distinct(xs[..m]), m, pick, Distinct(xs[..n]));
    }
  }
}
