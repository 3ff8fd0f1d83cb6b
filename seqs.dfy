/** `Array.prototype.filter` and `slice(0, n)`, with the facts the components rely on. */
module Seqs {

  /** `a` is `b` with some elements left out, order kept. */
  predicate IsSubsequence<T(==)>(a: seq<T>, b: seq<T>)
    decreases |b|
  {
    if a == [] then true
    else if b == [] then false
    else if a[0] == b[0] then IsSubsequence(a[1..], b[1..])
    else IsSubsequence(a, b[1..])
  }

  /** `s.filter(p)`: the elements satisfying `p`, in their original order. */
  function Filter<T(==)>(s: seq<T>, p: T -> bool): (r: seq<T>)
    ensures |r| <= |s|
    ensures forall i :: 0 <= i < |r| ==> p(r[i]) && r[i] in s
    ensures forall i :: 0 <= i < |s| && p(s[i]) ==> s[i] in r
    ensures IsSubsequence(r, s)
    decreases |s|
  {
    if s == [] then []
    else if p(s[0]) then [s[0]] + Filter(s[1..], p)
    else Filter(s[1..], p)
  }

  /** `s.slice(0, n)` for n >= 0. */
  function Take<T>(s: seq<T>, n: nat): (r: seq<T>)
    ensures |r| == if n < |s| then n else |s|
    ensures r == s[..|r|]
  {
    if n < |s| then s[..n] else s
  }

  /** Every subsequence of `b` is a subsequence of `b` with one more element in front. */
  lemma {:induction false} SubsequenceCons<T>(a: seq<T>, x: T, b: seq<T>)
    requires IsSubsequence(a, b)
    ensures IsSubsequence(a, [x] + b)
    decreases |a| + |b| + 1
  {
    if a != [] {
      if a[0] == x {
        assert ([x] + b)[1..] == b;
        SubsequenceDropHead(a, b);
      } else {
        assert ([x] + b)[1..] == b;
      }
    }
  }

  /** Dropping the first element keeps a subsequence. */
  lemma {:induction false} SubsequenceDropHead<T>(a: seq<T>, b: seq<T>)
    requires a != [] && IsSubsequence(a, b)
    ensures IsSubsequence(a[1..], b)
    decreases |a| + |b|
  {
    if a[0] == b[0] {
      if a[1..] != [] {
        SubsequenceCons(a[1..], b[0], b[1..]);
        assert [b[0]] + b[1..] == b;
      }
    } else {
      SubsequenceDropHead(a, b[1..]);
      if a[1..] != [] {
        SubsequenceCons(a[1..], b[0], b[1..]);
        assert [b[0]] + b[1..] == b;
      }
    }
  }

  /** A prefix of a subsequence is a subsequence. */
  lemma {:induction false} PrefixOfSubsequence<T>(a: seq<T>, b: seq<T>, n: nat)
    requires IsSubsequence(a, b)
    ensures IsSubsequence(Take(a, n), b)
    decreases |b|
  {
    if n < |a| && n > 0 {
      var t := Take(a, n);
      assert t[0] == a[0];
      if a[0] == b[0] {
        assert t[1..] == Take(a[1..], n - 1);
        PrefixOfSubsequence(a[1..], b[1..], n - 1);
      } else {
        PrefixOfSubsequence(a, b[1..], n);
      }
    }
  }

  /** Elements of a subsequence are elements of the whole. */
  lemma {:induction false} SubsequenceMembers<T>(a: seq<T>, b: seq<T>)
    requires IsSubsequence(a, b)
    ensures forall i :: 0 <= i < |a| ==> a[i] in b
    decreases |b|
  {
    if a != [] {
      if a[0] == b[0] {
        SubsequenceMembers(a[1..], b[1..]);
        assert a == [a[0]] + a[1..];
      } else {
        SubsequenceMembers(a, b[1..]);
      }
    }
  }

  /** A single element of a list is a subsequence of it. */
  lemma {:induction false} SubsequenceSingleton<T>(s: seq<T>, k: int)
    requires 0 <= k < |s|
    ensures IsSubsequence([s[k]], s)
    decreases |s|
  {
    if k > 0 && s[0] != s[k] {
      assert s[1..][k - 1] == s[k];
      SubsequenceSingleton(s[1..], k - 1);
    }
  }

  /** Filtering twice is filtering once by both tests. */
  lemma {:induction false} FilterFilter<T>(s: seq<T>, p: T -> bool, q: T -> bool, both: T -> bool)
    requires forall x :: both(x) == (p(x) && q(x))
    ensures Filter(Filter(s, p), q) == Filter(s, both)
    decreases |s|
  {
    if s != [] {
      FilterFilter(s[1..], p, q, both);
      if p(s[0]) {
        assert Filter(s, p) == [s[0]] + Filter(s[1..], p);
        assert Filter(s, p)[1..] == Filter(s[1..], p);
      }
    }
  }

  /** No element occurs twice. */
  predicate Distinct<T(==)>(s: seq<T>) {
    forall i, j :: 0 <= i < j < |s| ==> s[i] != s[j]
  }

  /**
   * Filtering a list without repeats by membership in one of its subsequences
   * gives that subsequence back.
   */
  lemma {:induction false} FilterRecoversSubsequence<T>(s: seq<T>, sub: seq<T>, p: T -> bool)
    requires Distinct(s) && IsSubsequence(sub, s)
    requires forall i :: 0 <= i < |s| ==> (p(s[i]) <==> s[i] in sub)
    ensures Filter(s, p) == sub
    decreases |s|
  {
    if s == [] {
    } else {
      assert Distinct(s[1..]) by {
        forall i, j | 0 <= i < j < |s[1..]|
          ensures s[1..][i] != s[1..][j]
        {
          assert s[1..][i] == s[i + 1] && s[1..][j] == s[j + 1];
        }
      }
      assert s[0] !in s[1..] by {
        forall k | 0 <= k < |s[1..]|
          ensures s[1..][k] != s[0]
        {
          assert s[1..][k] == s[k + 1];
        }
      }
      if sub != [] && sub[0] == s[0] {
        forall i | 0 <= i < |s[1..]|
          ensures p(s[1..][i]) <==> s[1..][i] in sub[1..]
        {
          assert s[1..][i] == s[i + 1];
          assert s[i + 1] != s[0];
          assert sub == [sub[0]] + sub[1..];
        }
        FilterRecoversSubsequence(s[1..], sub[1..], p);
        assert sub == [sub[0]] + sub[1..];
      } else {
        assert IsSubsequence(sub, s[1..]);
        SubsequenceMembers(sub, s[1..]);
        assert s[0] !in sub;
        forall i | 0 <= i < |s[1..]|
          ensures p(s[1..][i]) <==> s[1..][i] in sub
        {
          assert s[1..][i] == s[i + 1];
        }
        FilterRecoversSubsequence(s[1..], sub, p);
      }
    }
  }

  /** `s.findIndex(p)` started at `from`: the first index satisfying `p`, or -1. */
  function FindFrom<T>(s: seq<T>, p: T -> bool, from: nat): int
    decreases |s| - from
  {
    if from >= |s| then -1
    else if p(s[from]) then from
    else FindFrom(s, p, from + 1)
  }

  /** The search finds the first element at or after `from` satisfying `p`, and gives -1 only when there is none. */
  lemma {:induction false} FindFromSpec<T>(s: seq<T>, p: T -> bool, from: nat)
    ensures FindFrom(s, p, from) == -1 || from <= FindFrom(s, p, from) < |s|
    ensures FindFrom(s, p, from) >= 0 ==>
      p(s[FindFrom(s, p, from)]) && forall m :: from <= m < FindFrom(s, p, from) ==> !p(s[m])
    ensures FindFrom(s, p, from) == -1 <==> forall m :: from <= m < |s| ==> !p(s[m])
    decreases |s| - from
  {
    if from < |s| && !p(s[from]) {
      FindFromSpec(s, p, from + 1);
    }
  }
}
