/** Generic table operations: column maps, row filters, subsequences and
    first-occurrence deduplication (pandas' `drop_duplicates(keep='first')`). */
module Seqs {

  /** Apply `f` to every row, keeping the order. */
  function Map<A, B>(s: seq<A>, f: A -> B): (r: seq<B>)
    ensures |r| == |s|
    ensures forall i :: 0 <= i < |s| ==> r[i] == f(s[i])
  {
    seq(|s|, i requires 0 <= i < |s| => f(s[i]))
  }

  lemma MapMember<A, B>(s: seq<A>, f: A -> B, x: A)
    requires x in s
    ensures f(x) in Map(s, f)
  {
    var i :| 0 <= i < |s| && s[i] == x;
    assert Map(s, f)[i] == f(x);
  }

  /** An injective map keeps every element's multiplicity. */
  lemma {:induction false} MapInjectiveCount<A, B>(s: seq<A>, f: A -> B, x: A)
    requires forall a, b :: f(a) == f(b) ==> a == b
    ensures multiset(Map(s, f))[f(x)] == multiset(s)[x]
    decreases |s|
  {
    if |s| > 0 {
      assert s == [s[0]] + s[1..];
      assert Map(s, f) == [f(s[0])] + Map(s[1..], f);
      MapInjectiveCount(s[1..], f, x);
    }
  }

  lemma MapAppend<A, B>(a: seq<A>, b: seq<A>, f: A -> B)
    ensures Map(a + b, f) == Map(a, f) + Map(b, f)
  {
  }

  /** True when `xs` can be obtained from `ys` by deleting elements. */
  predicate IsSubsequence<T(==)>(xs: seq<T>, ys: seq<T>)
    decreases |ys|
  {
    if |xs| == 0 then true
    else if |ys| == 0 then false
    else (xs[0] == ys[0] && IsSubsequence(xs[1..], ys[1..])) || IsSubsequence(xs, ys[1..])
  }

  lemma {:induction false} SubsequenceMembers<T>(xs: seq<T>, ys: seq<T>)
    requires IsSubsequence(xs, ys)
    ensures |xs| <= |ys|
    ensures forall x :: x in xs ==> x in ys
    decreases |ys|
  {
    if |xs| == 0 {
    } else if xs[0] == ys[0] && IsSubsequence(xs[1..], ys[1..]) {
      SubsequenceMembers(xs[1..], ys[1..]);
      assert xs == [xs[0]] + xs[1..];
      assert ys == [ys[0]] + ys[1..];
    } else {
      SubsequenceMembers(xs, ys[1..]);
      assert ys == [ys[0]] + ys[1..];
    }
  }

  lemma {:induction false} SubsequenceMap<A, B>(xs: seq<A>, ys: seq<A>, f: A -> B)
    requires IsSubsequence(xs, ys)
    ensures IsSubsequence(Map(xs, f), Map(ys, f))
    decreases |ys|
  {
    if |xs| == 0 {
    } else if xs[0] == ys[0] && IsSubsequence(xs[1..], ys[1..]) {
      SubsequenceMap(xs[1..], ys[1..], f);
      assert Map(xs, f)[1..] == Map(xs[1..], f);
      assert Map(ys, f)[1..] == Map(ys[1..], f);
    } else {
      SubsequenceMap(xs, ys[1..], f);
      assert Map(ys, f)[1..] == Map(ys[1..], f);
    }
  }

  lemma {:induction false} SubsequenceSnoc<T>(xs: seq<T>, ys: seq<T>, z: T)
    requires IsSubsequence(xs, ys)
    ensures IsSubsequence(xs, ys + [z])
    ensures IsSubsequence(xs + [z], ys + [z])
    decreases |ys|
  {
    if |xs| == 0 {
      if |ys| == 0 {
        assert (xs + [z])[1..] == [];
      } else {
        SubsequenceSnoc(xs, ys[1..], z);
        assert (ys + [z])[1..] == ys[1..] + [z];
      }
    } else if xs[0] == ys[0] && IsSubsequence(xs[1..], ys[1..]) {
      SubsequenceSnoc(xs[1..], ys[1..], z);
      assert (ys + [z])[1..] == ys[1..] + [z];
      assert (xs + [z])[1..] == xs[1..] + [z];
    } else {
      SubsequenceSnoc(xs, ys[1..], z);
      assert (ys + [z])[1..] == ys[1..] + [z];
    }
  }

  /** No value occurs twice. */
  predicate Distinct<T(==)>(s: seq<T>) {
    forall i, j :: 0 <= i < j < |s| ==> s[i] != s[j]
  }

  lemma DistinctAppend<T>(a: seq<T>, b: seq<T>)
    requires Distinct(a) && Distinct(b)
    requires forall x :: x in b ==> x !in a
    ensures Distinct(a + b)
  {
    forall i, j | 0 <= i < j < |a + b| ensures (a + b)[i] != (a + b)[j] {
      if j >= |a| && i < |a| {
        assert (a + b)[j] in b;
      }
    }
  }

  lemma {:induction false} SubsequenceDistinct<T>(xs: seq<T>, ys: seq<T>)
    requires IsSubsequence(xs, ys) && Distinct(ys)
    ensures Distinct(xs)
    decreases |ys|
  {
    if |xs| == 0 {
    } else if xs[0] == ys[0] && IsSubsequence(xs[1..], ys[1..]) {
      SubsequenceDistinct(xs[1..], ys[1..]);
      SubsequenceMembers(xs[1..], ys[1..]);
      forall i, j | 0 <= i < j < |xs| ensures xs[i] != xs[j] {
        if i > 0 {
          assert xs[i] == xs[1..][i - 1] && xs[j] == xs[1..][j - 1];
        } else {
          assert xs[j] in xs[1..];
          assert xs[j] in ys[1..];
        }
      }
    } else {
      SubsequenceDistinct(xs, ys[1..]);
    }
  }

  /** The rows of `s` that satisfy `p`, in their original order. */
  function Filter<T(==)>(s: seq<T>, p: T -> bool): (r: seq<T>)
    ensures forall x :: x in r ==> x in s && p(x)
    ensures forall x :: x in s && p(x) ==> x in r
    ensures forall x :: x in s ==> multiset(r)[x] == if p(x) then multiset(s)[x] else 0
    ensures IsSubsequence(r, s)
    decreases |s|
  {
    if |s| == 0 then []
    else
      assert s == [s[0]] + s[1..];
      var rest := Filter(s[1..], p);
      if p(s[0]) then
        assert ([s[0]] + rest)[1..] == rest;
        [s[0]] + rest
      else rest
  }

  lemma {:induction false} FilterAppend<T>(a: seq<T>, b: seq<T>, p: T -> bool)
    ensures Filter(a + b, p) == Filter(a, p) + Filter(b, p)
    decreases |a|
  {
    if |a| == 0 {
      assert a + b == b;
    } else {
      assert (a + b)[1..] == a[1..] + b;
      FilterAppend(a[1..], b, p);
    }
  }

  /** Position of the first occurrence of `x` in `s`. */
  function FirstIndex<T(==)>(s: seq<T>, x: T): (i: nat)
    requires x in s
    ensures i < |s| && s[i] == x && x !in s[..i]
    decreases |s|
  {
    if s[0] == x then 0
    else
      var j := FirstIndex(s[1..], x);
      assert s[..j + 1] == [s[0]] + s[1..][..j];
      j + 1
  }

  lemma {:induction false} FirstIndexInPrefix<T>(s: seq<T>, n: nat, x: T)
    requires n <= |s| && x in s[..n]
    ensures FirstIndex(s, x) == FirstIndex(s[..n], x)
    decreases |s|
  {
    if s[0] != x {
      assert s[..n][1..] == s[1..][..n - 1];
      FirstIndexInPrefix(s[1..], n - 1, x);
    }
  }

  /** Keep the first occurrence of every value, in order of first occurrence. */
  function DropDuplicates<T(==)>(s: seq<T>): (r: seq<T>)
    ensures Distinct(r)
    ensures forall x :: x in r ==> x in s
    ensures forall x :: x in s ==> x in r
    ensures IsSubsequence(r, s)
    decreases |s|
  {
    if |s| == 0 then []
    else
      var init := s[..|s| - 1];
      var last := s[|s| - 1];
      var kept := DropDuplicates(init);
      assert s == init + [last];
      SubsequenceSnoc(kept, init, last);
      if last in init then kept else kept + [last]
  }

  /** The kept rows appear in the order of their first occurrence in the input. */
  lemma {:induction false} DropDuplicatesKeepsFirstOrder<T>(s: seq<T>)
    ensures forall i, j :: 0 <= i < j < |DropDuplicates(s)| ==>
      FirstIndex(s, DropDuplicates(s)[i]) < FirstIndex(s, DropDuplicates(s)[j])
    decreases |s|
  {
    if |s| > 0 {
      var init := s[..|s| - 1];
      var last := s[|s| - 1];
      var kept := DropDuplicates(init);
      DropDuplicatesKeepsFirstOrder(init);
      forall x | x in init ensures FirstIndex(s, x) == FirstIndex(init, x) {
        FirstIndexInPrefix(s, |s| - 1, x);
      }
      if last !in init {
        assert s == init + [last];
        assert FirstIndex(s, last) == |s| - 1;
      }
    }
  }

  lemma {:induction false} DropDuplicatesOfDistinct<T>(s: seq<T>)
    requires Distinct(s)
    ensures DropDuplicates(s) == s
    decreases |s|
  {
    if |s| > 0 {
      var init := s[..|s| - 1];
      assert Distinct(init);
      DropDuplicatesOfDistinct(init);
      assert s[|s| - 1] !in init;
      assert s == init + [s[|s| - 1]];
    }
  }

  /** `drop_duplicates` is idempotent. */
  lemma DropDuplicatesIdempotent<T>(s: seq<T>)
    ensures DropDuplicates(DropDuplicates(s)) == DropDuplicates(s)
  {
    DropDuplicatesOfDistinct(DropDuplicates(s));
  }

  /** The hash-set scan that pandas performs: one pass, remembering the rows seen. */
  method DropDuplicatesScan<T(==)>(s: seq<T>) returns (r: seq<T>)
    ensures r == DropDuplicates(s)
  {
    var seen: set<T> := {};
    r := [];
    var i := 0;
    while i < |s|
      invariant 0 <= i <= |s|
      invariant r == DropDuplicates(s[..i])
      invariant seen == set x | x in s[..i]
    {
      assert s[..i + 1][..i] == s[..i];
      assert s[..i + 1] == s[..i] + [s[i]];
      if s[i] !in seen {
        r := r + [s[i]];
        seen := seen + {s[i]};
      }
      i := i + 1;
    }
    assert s[..|s|] == s;
  }

  /** The key column of a table holds no value twice. */
  predicate UniqueKeys<T>(s: seq<T>, key: T -> int) {
    Distinct(Map(s, key))
  }

  /** Rows kept from a table with unique keys still have unique keys, and there are no more of them. */
  lemma SubsequenceUniqueKeys<T>(xs: seq<T>, ys: seq<T>, key: T -> int)
    requires IsSubsequence(xs, ys) && UniqueKeys(ys, key)
    ensures UniqueKeys(xs, key) && |xs| <= |ys|
  {
    SubsequenceMap(xs, ys, key);
    SubsequenceDistinct(Map(xs, key), Map(ys, key));
    SubsequenceMembers(xs, ys);
  }

  lemma {:induction false} SetSizeBound<T>(s: seq<T>)
    ensures |set x | x in s| <= |s|
    decreases |s|
  {
    if |s| > 0 {
      SetSizeBound(s[1..]);
      assert (set x | x in s) == {s[0]} + (set x | x in s[1..]);
    }
  }

  lemma {:induction false} DistinctSetSize<T>(s: seq<T>)
    requires Distinct(s)
    ensures |set x | x in s| == |s|
    decreases |s|
  {
    if |s| > 0 {
      assert Distinct(s[1..]);
      DistinctSetSize(s[1..]);
      assert (set x | x in s) == {s[0]} + (set x | x in s[1..]);
      assert s[0] !in (set x | x in s[1..]);
    }
  }

  /** A repetition-free sequence whose values all occur in `ys` is no longer than `ys`. */
  lemma DistinctLengthBound<T>(xs: seq<T>, ys: seq<T>)
    requires Distinct(xs)
    requires forall x :: x in xs ==> x in ys
    ensures |xs| <= |ys|
  {
    DistinctSetSize(xs);
    SetSizeBound(ys);
    var a := set x | x in xs;
    var b := set x | x in ys;
    assert a <= b;
    assert b == a + (b - a);
  }
}
