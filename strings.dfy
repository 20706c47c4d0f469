/**
 * Models of the Python string operations that the URL feature extractor
 * relies on: literal-pattern `re.search` (substring occurrence),
 * `str.count`, `str.startswith`, `str.split` with a one-character separator
 * (and its inverse, `sep.join`), and the character classes `str.isnumeric` /
 * `str.isalpha` restricted to ASCII.
 */
module Strings {

  /** `t` occurs in `s` starting at index `i`. */
  predicate OccursAt(t: string, s: string, i: int) {
    0 <= i && i + |t| <= |s| && s[i..i + |t|] == t
  }

  /** `t` occurs in `s`: what `re.search(t, s)` finds for a literal pattern `t`. */
  predicate Contains(s: string, t: string) {
    exists i | 0 <= i <= |s| - |t| :: OccursAt(t, s, i)
  }

  /** An occurrence survives text added on either side. */
  lemma ContainsInContext(pre: string, s: string, post: string, t: string)
    requires Contains(s, t)
    ensures Contains(pre + s + post, t)
  {
    var i :| 0 <= i <= |s| - |t| && OccursAt(t, s, i);
    var w := pre + s + post;
    assert w[|pre| + i..|pre| + i + |t|] == s[i..i + |t|];
    assert OccursAt(t, w, |pre| + i);
  }

  /** A text placed between two others occurs in the result. */
  lemma ContainsPlaced(pre: string, t: string, post: string)
    ensures Contains(pre + t + post, t)
  {
    var w := pre + t + post;
    assert w[|pre|..|pre| + |t|] == t;
    assert OccursAt(t, w, |pre|);
  }

  /** Python's `s.startswith(prefix)`. */
  predicate StartsWith(s: string, prefix: string) {
    |prefix| <= |s| && s[..|prefix|] == prefix
  }

  /** A text starts with every text it is built from on the right. */
  lemma StartsWithConcat(prefix: string, rest: string)
    ensures StartsWith(prefix + rest, prefix)
  {
    assert (prefix + rest)[..|prefix|] == prefix;
  }

  /**
   * Python's `s.count(t)` for a non-empty `t`: occurrences found scanning
   * left to right, resuming after the end of each one, so they never overlap
   * (`"///".count("//") == 1`).
   */
  function Count(s: string, t: string): nat
    requires t != []
    decreases |s|
  {
    if |s| < |t| then 0
    else if s[..|t|] == t then 1 + Count(s[|t|..], t)
    else Count(s[1..], t)
  }

  /** Non-overlapping occurrences of `t` take `|t|` characters each. */
  lemma {:induction false} CountBound(s: string, t: string)
    requires t != []
    ensures |t| * Count(s, t) <= |s|
    decreases |s|
  {
    if |s| < |t| {
    } else if s[..|t|] == t {
      var rest := s[|t|..];
      CountBound(rest, t);
      var n := Count(rest, t);
      assert Count(s, t) == n + 1;
      MulSucc(|t|, n);
    } else {
      CountBound(s[1..], t);
    }
  }

  /** Occurrences are taken left to right and never overlap. */
  lemma CountExample()
    ensures Count("///", "//") == 1
  {
    assert "///"[..2] == "//";
    assert "///"[2..] == "/";
  }

  /** The count is positive exactly when `t` occurs in `s`. */
  lemma {:induction false} CountPositive(s: string, t: string)
    requires t != []
    ensures Count(s, t) > 0 <==> Contains(s, t)
    decreases |s|
  {
    if |s| < |t| {
    } else if s[..|t|] == t {
      assert OccursAt(t, s, 0);
    } else {
      CountPositive(s[1..], t);
      if Contains(s[1..], t) {
        ContainsInContext([s[0]], s[1..], [], t);
        assert [s[0]] + s[1..] + [] == s;
      }
      if Contains(s, t) {
        var i :| 0 <= i <= |s| - |t| && OccursAt(t, s, i);
        assert i != 0;
        assert s[1..][i - 1..i - 1 + |t|] == s[i..i + |t|];
        assert OccursAt(t, s[1..], i - 1);
      }
    }
  }

  lemma MulSucc(a: int, n: int)
    ensures a * (n + 1) == a * n + a
  {
  }

  /** Counting a single character: appending `x` adds one exactly when `x == c`. */
  lemma {:induction false} CountCharSnoc(s: string, c: char, x: char)
    ensures Count(s + [x], [c]) == Count(s, [c]) + (if x == c then 1 else 0)
    decreases |s|
  {
    if s == [] {
      assert (s + [x])[..1] == [x];
      assert (s + [x])[1..] == [];
    } else {
      assert (s + [x])[..1] == s[..1];
      assert (s + [x])[1..] == s[1..] + [x];
      CountCharSnoc(s[1..], c, x);
    }
  }

  /** The number of positions of `s` whose character satisfies `p`. */
  function CountIf(s: string, p: char -> bool): (n: nat)
    ensures n <= |s|
  {
    if s == [] then 0
    else CountIf(s[..|s| - 1], p) + (if p(s[|s| - 1]) then 1 else 0)
  }

  /** `CountIf` counts the set of positions whose character satisfies `p`. */
  lemma {:induction false} CountIfIsPositionCount(s: string, p: char -> bool)
    ensures CountIf(s, p) == |set k | 0 <= k < |s| && p(s[k])|
  {
    if s != [] {
      var n := |s| - 1;
      var init := s[..n];
      CountIfIsPositionCount(init, p);
      var before := set k | 0 <= k < |init| && p(init[k]);
      var all := set k | 0 <= k < |s| && p(s[k]);
      if p(s[n]) {
        assert all == before + {n};
        assert n !in before;
      } else {
        assert all == before;
      }
    }
  }

  lemma {:induction false} CountIfAppend(a: string, b: string, p: char -> bool)
    ensures CountIf(a + b, p) == CountIf(a, p) + CountIf(b, p)
    decreases |b|
  {
    if b != [] {
      var b' := b[..|b| - 1];
      assert (a + b)[..|a + b| - 1] == a + b';
      assert (a + b)[|a + b| - 1] == b[|b| - 1];
      CountIfAppend(a, b', p);
      assert CountIf(b, p) == CountIf(b', p) + (if p(b[|b| - 1]) then 1 else 0);
    } else {
      assert a + b == a;
    }
  }

  /** `CountIf` is 0 on a string with no character satisfying `p`. */
  lemma {:induction false} CountIfNone(s: string, p: char -> bool)
    requires forall k | 0 <= k < |s| :: !p(s[k])
    ensures CountIf(s, p) == 0
  {
    if s != [] {
      CountIfNone(s[..|s| - 1], p);
    }
  }

  /** `CountIf` is `|s|` on a string whose every character satisfies `p`. */
  lemma {:induction false} CountIfAll(s: string, p: char -> bool)
    requires forall k | 0 <= k < |s| :: p(s[k])
    ensures CountIf(s, p) == |s|
  {
    if s != [] {
      CountIfAll(s[..|s| - 1], p);
    }
  }

  /** Python's `c.isnumeric()` on ASCII characters. */
  predicate IsNumeric(c: char) {
    '0' <= c <= '9'
  }

  /** Python's `c.isalpha()` on ASCII characters. */
  predicate IsAlpha(c: char) {
    'a' <= c <= 'z' || 'A' <= c <= 'Z'
  }

  /** The sum of `s.count(t)` over every `t` of `ts`. */
  function SumCounts(s: string, ts: seq<string>): nat
    requires forall k | 0 <= k < |ts| :: ts[k] != []
  {
    if ts == [] then 0 else Count(s, ts[0]) + SumCounts(s, ts[1..])
  }

  /** How many of `ts` are the one-character string `[x]`. */
  function Hits(ts: seq<string>, x: char): nat {
    if ts == [] then 0 else (if ts[0] == [x] then 1 else 0) + Hits(ts[1..], x)
  }

  lemma {:induction false} SumCountsSnoc(s: string, ts: seq<string>, x: char)
    requires forall k | 0 <= k < |ts| :: |ts[k]| == 1
    ensures SumCounts(s + [x], ts) == SumCounts(s, ts) + Hits(ts, x)
  {
    if ts != [] {
      var c := ts[0][0];
      assert ts[0] == [c];
      CountCharSnoc(s, c, x);
      SumCountsSnoc(s, ts[1..], x);
    }
  }

  lemma {:induction false} HitsAtMostOne(ts: seq<string>, x: char)
    requires forall i, j | 0 <= i < j < |ts| :: ts[i] != ts[j]
    ensures Hits(ts, x) <= 1
    ensures (forall k | 0 <= k < |ts| :: ts[k] != [x]) ==> Hits(ts, x) == 0
  {
    if ts != [] {
      HitsAtMostOne(ts[1..], x);
      if ts[0] == [x] {
        assert forall k | 0 <= k < |ts[1..]| :: ts[1..][k] != [x] by {
          forall k | 0 <= k < |ts[1..]| ensures ts[1..][k] != [x] {
            assert ts[1..][k] == ts[k + 1] && ts[0] != ts[k + 1];
          }
        }
      }
    }
  }

  /**
   * Counts of distinct single characters that are neither numeric nor
   * alphabetic, together with the numeric and the alphabetic counts, never
   * exceed the length: every position is counted at most once.
   */
  lemma {:induction false} DisjointCountsBound(s: string, ts: seq<string>)
    requires forall k | 0 <= k < |ts| :: |ts[k]| == 1
    requires forall i, j | 0 <= i < j < |ts| :: ts[i] != ts[j]
    requires forall k | 0 <= k < |ts| :: !IsNumeric(ts[k][0]) && !IsAlpha(ts[k][0])
    ensures SumCounts(s, ts) + CountIf(s, IsNumeric) + CountIf(s, IsAlpha) <= |s|
  {
    if s != [] {
      var init, x := s[..|s| - 1], s[|s| - 1];
      assert s == init + [x];
      DisjointCountsBound(init, ts);
      SumCountsSnoc(init, ts, x);
      HitsAtMostOne(ts, x);
      if IsNumeric(x) || IsAlpha(x) {
        assert forall k | 0 <= k < |ts| :: ts[k] != [x];
      }
      assert CountIf(s, IsNumeric) == CountIf(init, IsNumeric) + (if IsNumeric(x) then 1 else 0);
      assert CountIf(s, IsAlpha) == CountIf(init, IsAlpha) + (if IsAlpha(x) then 1 else 0);
    } else {
      SumCountsOfEmpty(ts);
    }
  }

  lemma {:induction false} SumCountsOfEmpty(ts: seq<string>)
    requires forall k | 0 <= k < |ts| :: ts[k] != []
    ensures SumCounts([], ts) == 0
  {
    if ts != [] {
      SumCountsOfEmpty(ts[1..]);
    }
  }

  /**
   * Python's `s.split(sep)` for a one-character separator: the maximal
   * separator-free pieces, so `"".split("\n") == [""]` and
   * `"a\n".split("\n") == ["a", ""]`.
   */
  function Split(s: string, sep: char): (parts: seq<string>)
    ensures |parts| >= 1
    ensures forall k | 0 <= k < |parts| :: sep !in parts[k]
  {
    if s == [] then [[]]
    else
      var rest := Split(s[1..], sep);
      if s[0] == sep then [[]] + rest
      else [[s[0]] + rest[0]] + rest[1..]
  }

  /** Python's `sep.join(parts)`. */
  function Join(parts: seq<string>, sep: char): string
    requires |parts| >= 1
  {
    if |parts| == 1 then parts[0] else parts[0] + [sep] + Join(parts[1..], sep)
  }

  /** Joining the pieces of a split gives the original text back. */
  lemma {:induction false} JoinSplit(s: string, sep: char)
    ensures Join(Split(s, sep), sep) == s
  {
    if s != [] {
      var rest := Split(s[1..], sep);
      JoinSplit(s[1..], sep);
      if s[0] != sep && |rest| > 1 {
        assert rest == [rest[0]] + rest[1..];
        assert Join(rest, sep) == rest[0] + [sep] + Join(rest[1..], sep);
      }
    }
  }

  /** Splitting right after a separator-free piece yields that piece first. */
  lemma {:induction false} SplitAfterPiece(x: string, sep: char, y: string)
    requires sep !in x
    ensures Split(x + [sep] + y, sep) == [x] + Split(y, sep)
    decreases |x|
  {
    if x == [] {
      assert x + [sep] + y == [sep] + y;
    } else {
      assert (x + [sep] + y)[1..] == x[1..] + [sep] + y;
      SplitAfterPiece(x[1..], sep, y);
      assert [x[0]] + x[1..] == x;
    }
  }

  /** Splitting the join of separator-free pieces gives the pieces back. */
  lemma {:induction false} SplitJoin(parts: seq<string>, sep: char)
    requires |parts| >= 1
    requires forall k | 0 <= k < |parts| :: sep !in parts[k]
    ensures Split(Join(parts, sep), sep) == parts
  {
    if |parts| == 1 {
      SplitNoSeparator(parts[0], sep);
    } else {
      SplitJoin(parts[1..], sep);
      SplitAfterPiece(parts[0], sep, Join(parts[1..], sep));
    }
  }

  lemma {:induction false} SplitNoSeparator(s: string, sep: char)
    requires sep !in s
    ensures Split(s, sep) == [s]
  {
    if s != [] {
      assert s[0] in s;
      SplitNoSeparator(s[1..], sep);
      assert [s[0]] + s[1..] == s;
    }
  }
}
