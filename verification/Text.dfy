/** String operations of Rust's standard library, on sequences of characters. */
module Text {
  import opened Wrappers

  predicate OccursAt(s: string, pat: string, at: nat) {
    at + |pat| <= |s| && MatchesFrom(s, pat, at, 0)
  }

  /** The characters of `pat` from `k` on stand in `s` at the same distance from `at`. */
  predicate MatchesFrom(s: string, pat: string, at: nat, k: nat)
    requires at + |pat| <= |s| && k <= |pat|
    decreases |pat| - k
  {
    k == |pat| || (pat[k] == s[at + k] && MatchesFrom(s, pat, at, k + 1))
  }

  lemma {:induction false} MatchesFromIff(s: string, pat: string, at: nat, k: nat)
    requires at + |pat| <= |s| && k <= |pat|
    ensures MatchesFrom(s, pat, at, k) <==> forall i | k <= i < |pat| :: pat[i] == s[at + i]
    decreases |pat| - k
  {
    if k < |pat| {
      MatchesFromIff(s, pat, at, k + 1);
    }
  }

  lemma OccursIff(s: string, pat: string, at: nat)
    ensures OccursAt(s, pat, at) <==> at + |pat| <= |s| && forall i | 0 <= i < |pat| :: pat[i] == s[at + i]
  {
    if at + |pat| <= |s| {
      MatchesFromIff(s, pat, at, 0);
    }
  }

  /** `str::find`: the least index at or after `from` where `pat` occurs. */
  function FindFrom(s: string, pat: string, from: nat): (r: Option<nat>)
    requires from <= |s|
    ensures r.Some? ==> from <= r.value && OccursAt(s, pat, r.value)
    ensures r.Some? ==> forall j | from <= j < r.value :: !OccursAt(s, pat, j)
    ensures r.None? ==> forall j | from <= j :: !OccursAt(s, pat, j)
    decreases |s| - from
  {
    if OccursAt(s, pat, from) then Some(from)
    else if from == |s| then None
    else FindFrom(s, pat, from + 1)
  }

  function Find(s: string, pat: string): (r: Option<nat>)
    ensures r.Some? ==> OccursAt(s, pat, r.value) && forall j | 0 <= j < r.value :: !OccursAt(s, pat, j)
    ensures r.None? ==> forall j: nat :: !OccursAt(s, pat, j)
  {
    FindFrom(s, pat, 0)
  }

  predicate Contains(s: string, pat: string) {
    Find(s, pat).Some?
  }

  lemma ContainsIffOccurs(s: string, pat: string)
    ensures Contains(s, pat) <==> exists i: nat :: OccursAt(s, pat, i)
  {
  }

  lemma ContainsInConcat(a: string, pat: string, b: string)
    ensures Contains(a + pat + b, pat)
  {
    OccursIff(a + pat + b, pat, |a|);
    assert OccursAt(a + pat + b, pat, |a|);
  }

  /** Unicode White_Space, as `str::trim` uses it. */
  predicate IsWhitespace(c: char) {
    '\t' <= c <= '\r' || c == ' ' || c == '\U{85}' || c == '\U{A0}' || c == '\U{1680}'
    || '\U{2000}' <= c <= '\U{200A}' || c == '\U{2028}' || c == '\U{2029}' || c == '\U{202F}'
    || c == '\U{205F}' || c == '\U{3000}'
  }

  /** `str::split(sep)`: never empty. */
  function Split(s: string, sep: char): (parts: seq<string>)
    ensures parts != []
    ensures forall p | p in parts :: sep !in p
  {
    if s == "" then [""]
    else
      var rest := Split(s[1..], sep);
      if s[0] == sep then [""] + rest else [[s[0]] + rest[0]] + rest[1..]
  }

  /** A stretch without separators, cut off on both sides by a separator or an end of the text. */
  ghost predicate PieceAt(s: string, sep: char, a: int, b: int) {
    && 0 <= a <= b <= |s| && (a == 0 || s[a - 1] == sep) && (b == |s| || s[b] == sep)
    && forall i | a <= i < b :: s[i] != sep
  }

  ghost predicate HasPiece(s: string, sep: char, p: string) {
    exists a, b :: PieceAt(s, sep, a, b) && s[a..b] == p
  }

  /** Splitting gives exactly those stretches. */
  lemma {:induction false} SplitPieces(s: string, sep: char, p: string)
    ensures p in Split(s, sep) <==> HasPiece(s, sep, p)
  {
    var end := FirstPiece(s, sep);
    if end == |s| {
      OnlyPiece(s, sep, p);
    } else {
      var rest := s[end + 1..];
      SplitPieces(rest, sep, p);
      LaterPieces(s, sep, end, rest, p, Split(s, sep), Split(rest, sep));
    }
  }

  /** The first piece ends at the first separator; what follows is split on its own. */
  lemma {:induction false} FirstPiece(s: string, sep: char) returns (end: nat)
    ensures PieceAt(s, sep, 0, end)
    ensures Split(s, sep) == [s[..end]] + if end == |s| then [] else Split(s[end + 1..], sep)
  {
    if s == "" {
      end := 0;
    } else if s[0] == sep {
      end := 0;
      assert s[1..] == s[end + 1..];
    } else {
      var rest := s[1..];
      var e := FirstPiece(rest, sep);
      end := e + 1;
      FirstPieceGrows(s, sep, rest, e);
    }
  }

  lemma FirstPieceGrows(s: string, sep: char, rest: string, e: nat)
    requires s != "" && s[0] != sep && rest == s[1..] && PieceAt(rest, sep, 0, e)
    ensures PieceAt(s, sep, 0, e + 1) && [s[0]] + rest[..e] == s[..e + 1]
    ensures e < |rest| ==> rest[e + 1..] == s[e + 2..]
  {
    forall i | 0 <= i < e + 1 ensures s[i] != sep {
      assert i > 0 ==> s[i] == rest[i - 1];
    }
    assert e < |rest| ==> rest[e] == s[e + 1];
  }

  lemma OnlyPiece(s: string, sep: char, p: string)
    requires PieceAt(s, sep, 0, |s|) && Split(s, sep) == [s[..|s|]]
    ensures p in Split(s, sep) <==> HasPiece(s, sep, p)
  {
    assert s[0..|s|] == s;
    assert PieceAt(s, sep, 0, |s|);
  }

  lemma LaterPieces(s: string, sep: char, end: nat, rest: string, p: string, pieces: seq<string>, others: seq<string>)
    requires PieceAt(s, sep, 0, end) && end < |s| && rest == s[end + 1..] && pieces == [s[..end]] + others
    requires p in others <==> HasPiece(rest, sep, p)
    ensures p in pieces <==> HasPiece(s, sep, p)
  {
    if p in pieces {
      if p == s[..end] {
        assert s[0..end] == p;
      } else {
        var a, b :| PieceAt(rest, sep, a, b) && rest[a..b] == p;
        PieceBelow(s, sep, end, rest, a + end + 1, b + end + 1);
      }
    }
    if HasPiece(s, sep, p) {
      var a, b :| PieceAt(s, sep, a, b) && s[a..b] == p;
      if a <= end {
        FirstPieceOnly(s, sep, end, a, b);
      } else {
        PieceBelow(s, sep, end, rest, a, b);
      }
    }
  }

  lemma FirstPieceOnly(s: string, sep: char, end: nat, a: nat, b: nat)
    requires PieceAt(s, sep, 0, end) && end < |s| && PieceAt(s, sep, a, b) && a <= end
    ensures a == 0 && b == end && s[a..b] == s[..end]
  {
  }

  lemma SlicesBelow(s: string, d: nat, rest: string, a: nat, b: nat, sep: char)
    requires d <= a <= b <= |s| && rest == s[d..]
    ensures s[a..b] == rest[a - d..b - d]
    ensures sep in s[a..b] <==> sep in rest[a - d..b - d]
  {
  }

  /** A piece is a slice without separators between separators or ends. */
  lemma PieceIsSlice(s: string, sep: char, a: nat, b: nat)
    requires a <= b <= |s|
    ensures PieceAt(s, sep, a, b)
       <==> (a == 0 || s[a - 1] == sep) && (b == |s| || s[b] == sep) && sep !in s[a..b]
  {
    if sep in s[a..b] {
      var i :| 0 <= i < b - a && s[a..b][i] == sep;
      assert s[a + i] == sep;
    }
    if i :| a <= i < b && s[i] == sep {
      assert s[a..b][i - a] == sep;
    }
  }

  lemma PieceBelow(s: string, sep: char, end: nat, rest: string, a: nat, b: nat)
    requires end < |s| && s[end] == sep && rest == s[end + 1..] && end < a <= b
    ensures PieceAt(s, sep, a, b) <==> PieceAt(rest, sep, a - end - 1, b - end - 1)
    ensures b <= |s| ==> s[a..b] == rest[a - end - 1..b - end - 1]
  {
    var d := end + 1;
    if b <= |s| {
      SlicesBelow(s, d, rest, a, b, sep);
      PieceIsSlice(s, sep, a, b);
      PieceIsSlice(rest, sep, a - d, b - d);
      assert a > d ==> rest[a - d - 1] == s[a - 1];
      assert b < |s| ==> rest[b - d] == s[b];
    }
  }

  function Join(parts: seq<string>, sep: string): string {
    if |parts| == 0 then ""
    else if |parts| == 1 then parts[0]
    else parts[0] + sep + Join(parts[1..], sep)
  }

  lemma {:induction false} SplitPlain(s: string, sep: char)
    requires sep !in s
    ensures Split(s, sep) == [s]
  {
    if s != "" {
      SplitPlain(s[1..], sep);
      assert [s[0]] + s[1..] == s;
    }
  }

  /** A separator cuts: splitting `a sep b` splits each side on its own. */
  lemma {:induction false} SplitAtSeparator(a: string, sep: char, b: string)
    ensures Split(a + [sep] + b, sep) == Split(a, sep) + Split(b, sep)
  {
    var s := a + [sep] + b;
    if a == "" {
      assert s[1..] == b;
    } else {
      assert s[1..] == a[1..] + [sep] + b;
      SplitAtSeparator(a[1..], sep, b);
    }
  }

  lemma {:induction false} SplitJoin(parts: seq<string>, sep: char)
    requires parts != []
    requires forall p | p in parts :: sep !in p
    ensures Split(Join(parts, [sep]), sep) == parts
  {
    SplitPlain(parts[0], sep);
    if |parts| > 1 {
      SplitAtSeparator(parts[0], sep, Join(parts[1..], [sep]));
      SplitJoin(parts[1..], sep);
    }
  }

  lemma {:induction false} JoinConcat(a: seq<string>, b: seq<string>, sep: string)
    requires a != [] && b != []
    ensures Join(a + b, sep) == Join(a, sep) + sep + Join(b, sep)
  {
    assert (a + b)[1..] == a[1..] + b;
    if |a| > 1 {
      JoinConcat(a[1..], b, sep);
    }
  }

  /** Byte order of UTF-8 strings, which is code point order. */
  predicate StringLe(a: string, b: string) {
    a == "" || (b != "" && (a[0] < b[0] || (a[0] == b[0] && StringLe(a[1..], b[1..]))))
  }

  lemma SameStart(a: string, b: string, k: nat)
    requires 0 < k <= |a| && k <= |b| && a[..k] == b[..k]
    ensures a[0] == b[0]
  {
    assert a[..k][0] == a[0] && b[..k][0] == b[0];
  }

  /** The first character that differs decides; a text comes after what it starts with. */
  lemma {:induction false} StringLeIff(a: string, b: string)
    ensures StringLe(a, b)
       <==> a <= b || exists k :: 0 <= k < |a| && k < |b| && a[..k] == b[..k] && a[k] < b[k]
  {
    if a != "" && b != "" && a[0] == b[0] {
      var s, t := a[1..], b[1..];
      StringLeIff(s, t);
      assert a == [a[0]] + s && b == [b[0]] + t;
      if k :| 0 <= k < |s| && k < |t| && s[..k] == t[..k] && s[k] < t[k] {
        assert a[..k + 1] == [a[0]] + s[..k] && b[..k + 1] == [b[0]] + t[..k];
        assert a[k + 1] < b[k + 1];
      }
      if k :| 0 <= k < |a| && k < |b| && a[..k] == b[..k] && a[k] < b[k] {
        assert k > 0;
        assert s[..k - 1] == a[..k][1..] && t[..k - 1] == b[..k][1..];
        assert s[k - 1] < t[k - 1];
      }
    } else if a != "" && b != "" {
      if a[0] < b[0] {
        assert a[..0] == b[..0];
      }
      if k :| 0 <= k < |a| && k < |b| && a[..k] == b[..k] && a[k] < b[k] {
        if k > 0 {
          SameStart(a, b, k);
        }
      }
    }
  }

  lemma {:induction false} StringLeTotal(a: string, b: string)
    ensures StringLe(a, b) || StringLe(b, a)
  {
    if a != "" && b != "" {
      StringLeTotal(a[1..], b[1..]);
    }
  }

  lemma {:induction false} StringLeAntisymmetric(a: string, b: string)
    requires StringLe(a, b) && StringLe(b, a)
    ensures a == b
  {
    if a != "" && b != "" {
      StringLeAntisymmetric(a[1..], b[1..]);
      assert a == [a[0]] + a[1..] && b == [b[0]] + b[1..];
    }
  }

  lemma {:induction false} StringLeTransitive(a: string, b: string, c: string)
    requires StringLe(a, b) && StringLe(b, c)
    ensures StringLe(a, c)
  {
    if a != "" && a[0] == b[0] && b[0] == c[0] {
      StringLeTransitive(a[1..], b[1..], c[1..]);
    }
  }

  function Digit(d: nat): (c: char)
    requires d < 10
    ensures '0' <= c <= '9' && c as int == '0' as int + d
  {
    ('0' as int + d) as char
  }

  /** Decimal rendering of a natural number. */
  function Decimal(n: nat): (s: string)
    ensures s != ""
    ensures forall i | 0 <= i < |s| :: '0' <= s[i] <= '9'
  {
    if n < 10 then [Digit(n)] else Decimal(n / 10) + [Digit(n % 10)]
  }

  /** The number that a row of digits stands for. */
  ghost function ValueOf(digits: string): int {
    if digits == "" then 0
    else 10 * ValueOf(digits[..|digits| - 1]) + (digits[|digits| - 1] as int - '0' as int)
  }

  /** A rendered number stands for itself and has no needless zero in front. */
  lemma {:induction false} DecimalStandsFor(n: nat)
    ensures ValueOf(Decimal(n)) == n && (Decimal(n)[0] == '0' ==> n == 0) && (n < 10 <==> |Decimal(n)| == 1)
  {
    if n < 10 {
      assert Decimal(n)[..0] == "";
    } else {
      DecimalStandsFor(n / 10);
      assert Decimal(n)[..|Decimal(n)| - 1] == Decimal(n / 10);
      assert Decimal(n)[0] == Decimal(n / 10)[0];
    }
  }

  /** Rendering of an integer. */
  function Integer(i: int): (s: string)
    ensures forall k | 0 <= k < |s| :: s[k] == '-' || '0' <= s[k] <= '9'
  {
    if i < 0 then "-" + Decimal(-i) else Decimal(i)
  }

  lemma {:induction false} DecimalInjective(m: nat, n: nat)
    requires Decimal(m) == Decimal(n)
    ensures m == n
  {
    var s := Decimal(m);
    assert s[|s| - 1] == Digit(m % 10) == Digit(n % 10);
    if m >= 10 && n >= 10 {
      assert Decimal(m / 10) == s[..|s| - 1] == Decimal(n / 10);
      DecimalInjective(m / 10, n / 10);
    }
  }

  lemma IntegerStandsFor(i: int)
    ensures i >= 0 ==> ValueOf(Integer(i)) == i && Integer(i)[0] != '-'
    ensures i < 0 ==> Integer(i)[0] == '-' && ValueOf(Integer(i)[1..]) == -i
  {
    DecimalStandsFor(if i < 0 then -i else i);
    if i < 0 {
      assert Integer(i)[1..] == Decimal(-i);
    }
  }

  /** A text that starts with a directory and a slash. */
  lemma BelowIff(path: string, dir: string)
    ensures dir + "/" <= path <==> |dir| < |path| && path[..|dir|] == dir && path[|dir|] == '/'
  {
    var whole := dir + "/";
    if whole <= path {
      assert path[..|whole|] == whole;
      assert path[..|dir|] == path[..|whole|][..|dir|] == dir;
      assert path[|dir|] == path[..|whole|][|dir|];
    }
    if |dir| < |path| && path[..|dir|] == dir && path[|dir|] == '/' {
      assert path[..|dir| + 1] == path[..|dir|] + [path[|dir|]];
    }
  }
}
