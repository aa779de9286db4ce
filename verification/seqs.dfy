/** Sequence operations behind the table code: boolean-mask selection, column sums,
    first-appearance de-duplication and the subsequence relation. */
module Seqs {
  import opened Ratios

  /** The elements of s that satisfy p, in their original order
      (a boolean-mask selection such as `df[df[col] > x]`). */
  function Where<T(==)>(s: seq<T>, p: T -> bool): (r: seq<T>)
    ensures |r| <= |s|
    ensures forall i :: 0 <= i < |r| ==> r[i] in s && p(r[i])
    ensures forall i :: 0 <= i < |s| && p(s[i]) ==> s[i] in r
  {
    if s == [] then []
    else if p(s[0]) then [s[0]] + Where(s[1..], p)
    else Where(s[1..], p)
  }

  /** A mask that holds everywhere keeps everything. */
  lemma {:induction false} WhereAll<T>(s: seq<T>, p: T -> bool)
    requires forall x :: x in s ==> p(x)
    ensures Where(s, p) == s
  {
    if s != [] {
      WhereAll(s[1..], p);
    }
  }

  /** A mask that holds nowhere keeps nothing. */
  lemma {:induction false} WhereNone<T>(s: seq<T>, p: T -> bool)
    requires forall i :: 0 <= i < |s| ==> !p(s[i])
    ensures Where(s, p) == []
  {
    if s != [] {
      WhereNone(s[1..], p);
    }
  }

  /** Selecting from a concatenation selects from each part. */
  lemma {:induction false} WhereAppend<T>(a: seq<T>, b: seq<T>, p: T -> bool)
    ensures Where(a + b, p) == Where(a, p) + Where(b, p)
  {
    if a != [] {
      assert (a + b)[1..] == a[1..] + b;
      WhereAppend(a[1..], b, p);
    } else {
      assert a + b == b;
    }
  }

  /** a is obtained from b by deleting elements, keeping the order of the rest. */
  predicate IsSubsequence<T(==)>(a: seq<T>, b: seq<T>)
    decreases |b|
  {
    if b == [] then a == []
    else (a != [] && a[0] == b[0] && IsSubsequence(a[1..], b[1..])) || IsSubsequence(a, b[1..])
  }

  lemma {:induction false} WhereIsSubsequence<T>(s: seq<T>, p: T -> bool)
    ensures IsSubsequence(Where(s, p), s)
  {
    if s != [] {
      WhereIsSubsequence(s[1..], p);
      if p(s[0]) {
        assert Where(s, p)[1..] == Where(s[1..], p);
      }
    }
  }

  lemma {:induction false} SubsequenceReflexive<T>(s: seq<T>)
    ensures IsSubsequence(s, s)
  {
    if s != [] {
      SubsequenceReflexive(s[1..]);
    }
  }

  lemma {:induction false} SubsequenceTransitive<T>(a: seq<T>, b: seq<T>, c: seq<T>)
    requires IsSubsequence(a, b) && IsSubsequence(b, c)
    ensures IsSubsequence(a, c)
    decreases |c|
  {
    if c == [] {
    } else if IsSubsequence(b, c[1..]) {
      SubsequenceTransitive(a, b, c[1..]);
    } else {
      assert b != [] && b[0] == c[0] && IsSubsequence(b[1..], c[1..]);
      if a != [] && a[0] == b[0] && IsSubsequence(a[1..], b[1..]) {
        SubsequenceTransitive(a[1..], b[1..], c[1..]);
      } else {
        SubsequenceTransitive(a, b[1..], c[1..]);
      }
    }
  }

  /** Selecting with p and then with q is selecting once with their conjunction
      (pq only needs to agree with `p && q` on the elements of s). */
  lemma {:induction false} WhereThen<T>(s: seq<T>, p: T -> bool, q: T -> bool, pq: T -> bool)
    requires forall x :: x in s ==> pq(x) == (p(x) && q(x))
    ensures Where(Where(s, p), q) == Where(s, pq)
  {
    if s != [] {
      WhereThen(s[1..], p, q, pq);
      if p(s[0]) {
        assert Where(s, p) == [s[0]] + Where(s[1..], p);
        assert Where(s, p)[1..] == Where(s[1..], p);
      }
    }
  }

  /** Two masks that agree on the elements of s select the same rows. */
  lemma {:induction false} WhereSame<T>(s: seq<T>, p: T -> bool, q: T -> bool)
    requires forall x :: x in s ==> p(x) == q(x)
    ensures Where(s, p) == Where(s, q)
  {
    if s != [] {
      WhereSame(s[1..], p, q);
    }
  }

  /** A mask and its negation split s: the two selections together have |s| rows. */
  lemma {:induction false} WhereSplit<T>(s: seq<T>, p: T -> bool, np: T -> bool)
    requires forall x :: x in s ==> np(x) == !p(x)
    ensures |Where(s, p)| + |Where(s, np)| == |s|
  {
    if s != [] {
      WhereSplit(s[1..], p, np);
    }
  }

  /** A weaker mask keeps at least the rows of a stronger one, in the same order. */
  lemma WhereMonotone<T>(s: seq<T>, p: T -> bool, q: T -> bool)
    requires forall x :: x in s && p(x) ==> q(x)
    ensures IsSubsequence(Where(s, p), Where(s, q))
  {
    WhereThen(s, q, p, p);
    WhereIsSubsequence(Where(s, q), p);
  }

  /** The sum of f over the rows of s (a column `.sum()` after `.fillna(0)`). */
  function SumOf<T(==)>(s: seq<T>, f: T -> real): real
  {
    if s == [] then 0.0 else f(s[0]) + SumOf(s[1..], f)
  }

  lemma {:induction false} SumOfAdd<T>(s: seq<T>, f: T -> real, g: T -> real, fg: T -> real)
    requires forall x :: x in s ==> fg(x) == f(x) + g(x)
    ensures SumOf(s, fg) == SumOf(s, f) + SumOf(s, g)
  {
    if s != [] {
      SumOfAdd(s[1..], f, g, fg);
    }
  }

  lemma {:induction false} SumOfConstant<T>(s: seq<T>, f: T -> real, c: real)
    requires forall x :: x in s ==> f(x) == c
    ensures SumOf(s, f) == |s| as real * c
  {
    if s != [] {
      SumOfConstant(s[1..], f, c);
    }
  }

  lemma {:induction false} SumOfBounds<T>(s: seq<T>, f: T -> real, lo: real, hi: real)
    requires forall x :: x in s ==> lo <= f(x) <= hi
    ensures |s| as real * lo <= SumOf(s, f) <= |s| as real * hi
  {
    if s != [] {
      SumOfBounds(s[1..], f, lo, hi);
    }
  }

  /** A pointwise smaller summand gives a smaller sum. */
  lemma {:induction false} SumOfMonotone<T>(s: seq<T>, f: T -> real, g: T -> real)
    requires forall x :: x in s ==> f(x) <= g(x)
    ensures SumOf(s, f) <= SumOf(s, g)
  {
    if s != [] {
      SumOfMonotone(s[1..], f, g);
    }
  }

  /** Scaling every summand by k scales the sum by k. */
  lemma {:induction false} SumOfScale<T>(s: seq<T>, f: T -> real, g: T -> real, k: real)
    requires forall x :: x in s ==> g(x) == k * f(x)
    ensures SumOf(s, g) == k * SumOf(s, f)
  {
    if s != [] {
      SumOfScale(s[1..], f, g, k);
      assert k * (f(s[0]) + SumOf(s[1..], f)) == k * f(s[0]) + k * SumOf(s[1..], f);
    }
  }

  /** Summands bounded by lo and hi times a weight sum to between lo and hi times the
      weights' sum. */
  lemma {:induction false} SumOfWeightedBounds<T>(s: seq<T>, w: T -> real, v: T -> real, lo: real, hi: real)
    requires forall x :: x in s ==> WeightedWithin(lo, hi, w(x), v(x))
    ensures WeightedWithin(lo, hi, SumOf(s, w), SumOf(s, v))
  {
    if s != [] {
      SumOfWeightedBounds(s[1..], w, v, lo, hi);
      WeightedWithinAdd(lo, hi, w(s[0]), v(s[0]), SumOf(s[1..], w), SumOf(s[1..], v));
    } else {
      assert lo * 0.0 == 0.0 == hi * 0.0;
    }
  }

  lemma {:induction false} SumOfNonNegative<T>(s: seq<T>, f: T -> real)
    requires forall x :: x in s ==> f(x) >= 0.0
    ensures SumOf(s, f) >= 0.0
  {
    if s != [] {
      SumOfNonNegative(s[1..], f);
    }
  }

  /** Summands that agree on s give the same sum. */
  lemma {:induction false} SumOfSame<T>(s: seq<T>, f: T -> real, g: T -> real)
    requires forall x :: x in s ==> f(x) == g(x)
    ensures SumOf(s, f) == SumOf(s, g)
  {
    if s != [] {
      SumOfSame(s[1..], f, g);
    }
  }

  /** No value occurs twice. */
  predicate NoDuplicates<T(==)>(s: seq<T>)
  {
    forall i, j :: 0 <= i < j < |s| ==> s[i] != s[j]
  }

  /** The position of the first occurrence of x in s. */
  function IndexOf<T(==)>(s: seq<T>, x: T): (i: nat)
    requires x in s
    ensures i < |s| && s[i] == x && x !in s[..i]
  {
    if s[0] == x then 0 else 1 + IndexOf(s[1..], x)
  }

  /** Appending to s does not move the first occurrence of anything already in s. */
  lemma {:induction false} IndexOfPrefix<T>(s: seq<T>, t: seq<T>, x: T)
    requires x in s
    ensures x in s + t && IndexOf(s + t, x) == IndexOf(s, x)
  {
    if s[0] != x {
      assert (s + t)[1..] == s[1..] + t;
      IndexOfPrefix(s[1..], t, x);
    }
  }

  /** The distinct values of s in order of first appearance (pandas `Series.unique()`). */
  function Distinct<T(==)>(s: seq<T>): (r: seq<T>)
    ensures forall i :: 0 <= i < |r| ==> r[i] in s
    ensures forall i :: 0 <= i < |s| ==> s[i] in r
    ensures NoDuplicates(r)
  {
    if s == [] then []
    else
      var u := Distinct(s[..|s| - 1]);
      assert s == s[..|s| - 1] + [s[|s| - 1]];
      if s[|s| - 1] in u then u else u + [s[|s| - 1]]
  }

  /** Distinct keeps the order of first appearance. */
  lemma {:induction false} DistinctFirstAppearance<T>(s: seq<T>)
    ensures forall i, j :: 0 <= i < j < |Distinct(s)| ==> IndexOf(s, Distinct(s)[i]) < IndexOf(s, Distinct(s)[j])
  {
    if s != [] {
      var t, x := s[..|s| - 1], s[|s| - 1];
      assert s == t + [x];
      DistinctFirstAppearance(t);
      var u := Distinct(t);
      forall y | y in t ensures IndexOf(s, y) == IndexOf(t, y) {
        IndexOfPrefix(t, [x], y);
      }
      if x !in u {
        assert x !in t;
        assert IndexOf(s, x) == |t|;
        assert Distinct(s) == u + [x];
        forall i, j | 0 <= i < j < |u| + 1 ensures IndexOf(s, (u + [x])[i]) < IndexOf(s, (u + [x])[j]) {
          assert (u + [x])[i] == u[i] && u[i] in t;
          if j == |u| {
            assert IndexOf(t, u[i]) < |t|;
          } else {
            assert (u + [x])[j] == u[j] && u[j] in t;
          }
        }
      }
    }
  }
}
