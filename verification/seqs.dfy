/** Sequence vocabulary shared by the model: distinctness, elements, subsequences. */
module Seqs {

  /** No element occurs twice. */
  predicate Distinct<T(==)>(s: seq<T>)
  {
    forall i, j :: 0 <= i < j < |s| ==> s[i] != s[j]
  }

  /** The set of elements of a sequence. */
  function Elems<T(==)>(s: seq<T>): set<T>
  {
    set x | x in s
  }

  /** The position of the first occurrence of `x` in `s`. */
  function FirstIndex<T(==)>(s: seq<T>, x: T): (i: nat)
    requires x in s
    ensures i < |s| && s[i] == x
    ensures forall k :: 0 <= k < i ==> s[k] != x
    decreases |s|
  {
    if s[0] == x then 0
    else
      assert x in s[1..];
      1 + FirstIndex(s[1..], x)
  }

  /** The elements of `sub`, all occurring in `s`, come in the order of their first occurrences in `s`. */
  predicate InFirstOccurrenceOrder<T(==)>(sub: seq<T>, s: seq<T>)
  {
    forall i, j :: 0 <= i < j < |sub| && sub[i] in s && sub[j] in s ==> FirstIndex(s, sub[i]) < FirstIndex(s, sub[j])
  }

  /**
    `sub` can be obtained from `s` by deleting elements, keeping the order of
    the rest. Matching greedily against the earliest occurrence decides it.
   */
  predicate IsSubsequence<T(==)>(sub: seq<T>, s: seq<T>)
    decreases |s|
  {
    if |sub| == 0 then true
    else if |s| == 0 then false
    else if sub[0] == s[0] then IsSubsequence(sub[1..], s[1..])
    else IsSubsequence(sub, s[1..])
  }

  /** Prefixing `s` with one more element keeps every subsequence of `s` a subsequence. */
  lemma {:induction false} SubsequenceCons<T>(sub: seq<T>, x: T, s: seq<T>)
    requires IsSubsequence(sub, s)
    ensures IsSubsequence(sub, [x] + s)
    decreases |s|, 1
  {
    assert ([x] + s)[1..] == s;
    if |sub| > 0 && sub[0] == x {
      SubsequenceDropHead(sub, s);
    }
  }

  /** Dropping the first element of a subsequence leaves a subsequence. */
  lemma {:induction false} SubsequenceDropHead<T>(sub: seq<T>, s: seq<T>)
    requires |sub| > 0 && IsSubsequence(sub, s)
    ensures IsSubsequence(sub[1..], s)
    decreases |s|, 0
  {
    if sub[0] == s[0] {
      SubsequenceCons(sub[1..], s[0], s[1..]);
      assert [s[0]] + s[1..] == s;
    } else {
      SubsequenceDropHead(sub, s[1..]);
      SubsequenceCons(sub[1..], s[0], s[1..]);
      assert [s[0]] + s[1..] == s;
    }
  }

  /** Two duplicate-free sequences with no element in common concatenate to a duplicate-free one. */
  lemma {:induction false} DistinctAppend<T>(a: seq<T>, b: seq<T>)
    requires Distinct(a) && Distinct(b)
    requires forall x :: x in a ==> x !in b
    ensures Distinct(a + b)
  {
    forall i, j | 0 <= i < j < |a + b|
      ensures (a + b)[i] != (a + b)[j]
    {
      if j < |a| {
        assert (a + b)[i] == a[i] && (a + b)[j] == a[j];
      } else if i >= |a| {
        assert (a + b)[i] == b[i - |a|] && (a + b)[j] == b[j - |a|];
      } else {
        assert (a + b)[i] == a[i] && (a + b)[j] == b[j - |a|];
        assert a[i] in a;
      }
    }
  }

  lemma {:induction false} ElemsAppend<T>(a: seq<T>, b: seq<T>)
    ensures Elems(a + b) == Elems(a) + Elems(b)
  {
  }

  lemma {:induction false} SubsequenceTransitive<T>(a: seq<T>, b: seq<T>, c: seq<T>)
    requires IsSubsequence(a, b) && IsSubsequence(b, c)
    ensures IsSubsequence(a, c)
    decreases |c|
  {
    if |a| > 0 {
      if b[0] == c[0] {
        if a[0] == b[0] {
          SubsequenceTransitive(a[1..], b[1..], c[1..]);
        } else {
          SubsequenceTransitive(a, b[1..], c[1..]);
        }
      } else {
        SubsequenceTransitive(a, b, c[1..]);
        SubsequenceCons(a, c[0], c[1..]);
        assert [c[0]] + c[1..] == c;
      }
    }
  }

  lemma {:induction false} SubsequenceReflexive<T>(s: seq<T>)
    ensures IsSubsequence(s, s)
    decreases |s|
  {
    if |s| > 0 {
      SubsequenceReflexive(s[1..]);
    }
  }

  /** A duplicate-free sequence has as many elements as its length. */
  lemma {:induction false} DistinctCardinality<T>(s: seq<T>)
    requires Distinct(s)
    ensures |Elems(s)| == |s|
    decreases |s|
  {
    if |s| > 0 {
      assert s == [s[0]] + s[1..];
      assert Elems(s) == {s[0]} + Elems(s[1..]);
      assert s[0] !in Elems(s[1..]);
      DistinctCardinality(s[1..]);
    }
  }

  /** Regrouping a bracketed concatenation. */
  lemma {:induction false} BracketRegroup<T>(b: T, xs: seq<T>, ys: seq<T>, zs: seq<T>, e: T)
    ensures [b] + (xs + ys + zs) + [e] == [b] + xs + ys + zs + [e]
  {
  }

  lemma {:induction false} AppendAssoc<T>(a: seq<T>, b: seq<T>, c: seq<T>)
    ensures a + (b + c) == (a + b) + c
  {
  }

  /** A non-empty prefix is the head followed by a prefix of the tail. */
  lemma {:induction false} PrefixAfterHead<T>(s: seq<T>, k: nat)
    requires 0 < k <= |s|
    ensures s[..k] == s[..1] + s[1..][..k - 1]
  {
  }

  /** The tail of a concatenation whose first part is non-empty. */
  lemma {:induction false} TailOfAppend<T>(a: seq<T>, b: seq<T>)
    requires |a| > 0
    ensures (a + b)[0] == a[0] && (a + b)[1..] == a[1..] + b
  {
  }

  /** Regrouping a bracketed concatenation with three trailing elements. */
  lemma {:induction false} Regroup<T>(b: T, xs: seq<T>, ys: seq<T>, p: T, q: T, e: T)
    ensures [b] + (xs + ys + [p]) + [q, e] == [b] + xs + ys + [p, q, e]
  {
  }

  /** Flattening a bracketed concatenation nested in another. */
  lemma {:induction false} Flatten<T>(a: T, b: T, p: seq<T>, q: seq<T>, r: seq<T>, s: seq<T>, t: seq<T>, e: T)
    ensures [a] + ([b] + p + q + r) + s + t + [e] == [a, b] + p + q + r + s + t + [e]
  {
  }

  /** A sequence with no elements is empty. */
  lemma {:induction false} ElemsEmpty<T>(s: seq<T>)
    ensures Elems(s) == {} ==> s == []
  {
    if |s| > 0 {
      assert s[0] in Elems(s);
    }
  }
}
