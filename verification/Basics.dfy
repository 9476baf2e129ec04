/** Equations on sequences and products that proofs by recursion over a last
    element, and about whole periods, use over and over. */
module Basics {
  lemma InitOfConcat<T>(a: seq<T>, b: seq<T>)
    requires b != []
    ensures (a + b)[..|a + b| - 1] == a + b[..|b| - 1] && (a + b)[|a + b| - 1] == b[|b| - 1]
  {
  }

  lemma InitOfAppend<T>(s: seq<T>, x: T)
    ensures (s + [x])[..|s + [x]| - 1] == s && (s + [x])[|s + [x]| - 1] == x
  {
  }

  lemma InitAndLast<T>(s: seq<T>)
    requires s != []
    ensures s == s[..|s| - 1] + [s[|s| - 1]]
  {
  }

  lemma ConcatNothing<T>(s: seq<T>)
    ensures s + [] == s && [] + s == s
  {
  }

  /** Where one sequence ends and the next begins. */
  lemma SplitConcat<T>(a: seq<T>, b: seq<T>)
    requires b != []
    ensures (a + b)[..|a|] == a && (a + b)[|a|] == b[0] && (a + b)[|a| + 1..] == b[1..]
    ensures (a + [b[0]]) + b[1..] == a + b
  {
  }

  lemma PrefixOfInit<T>(s: seq<T>, m: nat)
    requires m < |s|
    ensures s[..|s| - 1][..m] == s[..m]
  {
  }

  lemma PrefixOfNext<T>(s: seq<T>, m: nat)
    requires m < |s|
    ensures s[..m + 1][..|s[..m + 1]| - 1] == s[..m] && s[..m + 1][|s[..m + 1]| - 1] == s[m]
  {
  }

  lemma PrefixMore<T>(s: seq<T>, i: nat)
    requires i < |s|
    ensures s[..i + 1] == s[..i] + [s[i]]
  {
  }

  lemma WholePrefix<T>(s: seq<T>)
    ensures s[..|s|] == s
  {
  }

  lemma Monotone(a: int, b: int, p: int)
    requires a <= b && p >= 0
    ensures a * p <= b * p
  {
  }

  lemma OneMore(a: int, p: int)
    ensures (a + 1) * p == a * p + p
  {
  }

  /** The quotient is `m` on exactly the m-th stretch of length `p`. */
  lemma QuotientIs(x: int, p: int, m: int)
    requires p > 0
    ensures x / p == m <==> m * p <= x < m * p + p
  {
    var q := x / p;
    assert x == q * p + x % p;
    if q > m {
      Monotone(m + 1, q, p);
      OneMore(m, p);
    } else if q < m {
      Monotone(q + 1, m, p);
      OneMore(q, p);
    }
  }

  /** And below `m` exactly before that stretch. */
  lemma QuotientBelow(x: int, p: int, m: int)
    requires p > 0
    ensures x / p < m <==> x < m * p
  {
    var q := x / p;
    QuotientIs(x, p, q);
    if q < m {
      Monotone(q + 1, m, p);
      OneMore(q, p);
    } else {
      Monotone(m, q, p);
    }
  }
}
