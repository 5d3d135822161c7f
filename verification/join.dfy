/** pandas' `merge(how='inner')` on one integer key column: every left row is
    paired with every right row that carries the same key, left rows in their
    order and, for one left row, right rows in theirs. */
module Join {
  import opened Seqs

  /** The pairs of `l` with the rows of `right` whose key equals `l`'s. */
  function Matches<L(==), R(==)>(l: L, right: seq<R>, lk: L -> int, rk: R -> int): (r: seq<(L, R)>)
    ensures forall x :: x in r ==> x.0 == l && x.1 in right && rk(x.1) == lk(l)
    ensures forall y :: y in right && rk(y) == lk(l) ==> (l, y) in r
    ensures var hits := Filter(right, (y: R) => rk(y) == lk(l));
      |r| == |hits| && forall i :: 0 <= i < |r| ==> r[i] == (l, hits[i])
    decreases |right|
  {
    if |right| == 0 then []
    else
      assert right == [right[0]] + right[1..];
      var rest := Matches(l, right[1..], lk, rk);
      if rk(right[0]) == lk(l) then [(l, right[0])] + rest else rest
  }

  function InnerJoin<L(==), R(==)>(left: seq<L>, right: seq<R>, lk: L -> int, rk: R -> int): (r: seq<(L, R)>)
    ensures forall x :: x in r ==> x.0 in left && x.1 in right && lk(x.0) == rk(x.1)
    ensures forall x: L, y: R :: x in left && y in right && lk(x) == rk(y) ==> (x, y) in r
    decreases |left|
  {
    if |left| == 0 then []
    else
      assert left == [left[0]] + left[1..];
      Matches(left[0], right, lk, rk) + InnerJoin(left[1..], right, lk, rk)
  }

  /** Each matching right row gives exactly one pair, as often as it occurs. */
  lemma {:induction false} MatchesCount<L, R>(l: L, right: seq<R>, lk: L -> int, rk: R -> int, x: L, y: R)
    ensures multiset(Matches(l, right, lk, rk))[(x, y)] ==
      if x == l && rk(y) == lk(l) then multiset(right)[y] else 0
    decreases |right|
  {
    if |right| > 0 {
      assert right == [right[0]] + right[1..];
      MatchesCount(l, right[1..], lk, rk, x, y);
    }
  }

  /** One joined row per matching pair of left and right rows. */
  lemma {:induction false} InnerJoinCount<L, R>(left: seq<L>, right: seq<R>, lk: L -> int, rk: R -> int, x: L, y: R)
    ensures multiset(InnerJoin(left, right, lk, rk))[(x, y)] ==
      if lk(x) == rk(y) then multiset(left)[x] * multiset(right)[y] else 0
    decreases |left|
  {
    if |left| > 0 {
      InnerJoinUnfold(left, right, lk, rk, x, y);
      InnerJoinCount(left[1..], right, lk, rk, x, y);
      MatchesCount(left[0], right, lk, rk, x, y);
      HeadCount(left, x);
      SplitProduct(left[0] == x, multiset(left[1..])[x], multiset(right)[y]);
    }
  }

  lemma InnerJoinUnfold<L, R>(left: seq<L>, right: seq<R>, lk: L -> int, rk: R -> int, x: L, y: R)
    requires |left| > 0
    ensures multiset(InnerJoin(left, right, lk, rk))[(x, y)] ==
      multiset(Matches(left[0], right, lk, rk))[(x, y)] + multiset(InnerJoin(left[1..], right, lk, rk))[(x, y)]
  {
    var m := Matches(left[0], right, lk, rk);
    var rest := InnerJoin(left[1..], right, lk, rk);
    assert InnerJoin(left, right, lk, rk) == m + rest;
    assert multiset(m + rest) == multiset(m) + multiset(rest);
  }

  lemma HeadCount<T>(s: seq<T>, x: T)
    requires |s| > 0
    ensures multiset(s)[x] == (if s[0] == x then 1 else 0) + multiset(s[1..])[x]
  {
    assert s == [s[0]] + s[1..];
  }

  lemma SplitProduct(first: bool, a: int, b: int)
    ensures ((if first then 1 else 0) + a) * b == (if first then b else 0) + a * b
  {
  }

  /** Left-row order is kept: joining a concatenation of left tables is the
      concatenation of the joins. */
  lemma {:induction false} InnerJoinAppend<L, R>(a: seq<L>, b: seq<L>, right: seq<R>, lk: L -> int, rk: R -> int)
    ensures InnerJoin(a + b, right, lk, rk) == InnerJoin(a, right, lk, rk) + InnerJoin(b, right, lk, rk)
    decreases |a|
  {
    if |a| == 0 {
      assert a + b == b;
    } else {
      assert (a + b)[1..] == a[1..] + b;
      InnerJoinAppend(a[1..], b, right, lk, rk);
    }
  }

  /** The key column of a joined table (the shared key of each pair). */
  function PairKeys<L, R>(r: seq<(L, R)>, lk: L -> int): (ks: seq<int>)
    ensures |ks| == |r|
    ensures forall i :: 0 <= i < |r| ==> ks[i] == lk(r[i].0)
  {
    seq(|r|, i requires 0 <= i < |r| => lk(r[i].0))
  }

  lemma {:induction false} MatchesNone<L, R>(l: L, right: seq<R>, lk: L -> int, rk: R -> int)
    requires forall y :: y in right ==> rk(y) != lk(l)
    ensures Matches(l, right, lk, rk) == []
    decreases |right|
  {
    if |right| > 0 {
      assert right[0] in right;
      assert forall y :: y in right[1..] ==> y in right;
      MatchesNone(l, right[1..], lk, rk);
    }
  }

  lemma {:induction false} MatchesAtMostOne<L, R>(l: L, right: seq<R>, lk: L -> int, rk: R -> int)
    requires UniqueKeys(right, rk)
    ensures |Matches(l, right, lk, rk)| <= 1
    decreases |right|
  {
    if |right| > 0 {
      assert Map(right[1..], rk) == Map(right, rk)[1..];
      MatchesAtMostOne(l, right[1..], lk, rk);
      if rk(right[0]) == lk(l) {
        forall y | y in right[1..] ensures rk(y) != lk(l) {
          var k :| 0 <= k < |right[1..]| && right[1..][k] == y;
          assert Map(right, rk)[0] != Map(right, rk)[k + 1];
        }
        MatchesNone(l, right[1..], lk, rk);
      }
    }
  }

  lemma PairKeysAppend<L, R>(a: seq<(L, R)>, b: seq<(L, R)>, lk: L -> int)
    ensures PairKeys(a + b, lk) == PairKeys(a, lk) + PairKeys(b, lk)
  {
  }

  /** With unique keys on the right, each left row yields at most one joined row. */
  lemma {:induction false} InnerJoinNoLongerThanLeft<L, R>(left: seq<L>, right: seq<R>, lk: L -> int, rk: R -> int)
    requires UniqueKeys(right, rk)
    ensures |InnerJoin(left, right, lk, rk)| <= |left|
    decreases |left|
  {
    if |left| > 0 {
      InnerJoinNoLongerThanLeft(left[1..], right, lk, rk);
      MatchesAtMostOne(left[0], right, lk, rk);
    }
  }

  /** With unique keys on both sides the joined table has unique keys. */
  lemma {:induction false} InnerJoinUniqueKeys<L, R>(left: seq<L>, right: seq<R>, lk: L -> int, rk: R -> int)
    requires UniqueKeys(left, lk) && UniqueKeys(right, rk)
    ensures Distinct(PairKeys(InnerJoin(left, right, lk, rk), lk))
    decreases |left|
  {
    if |left| > 0 {
      var m := Matches(left[0], right, lk, rk);
      var rest := InnerJoin(left[1..], right, lk, rk);
      assert Map(left[1..], lk) == Map(left, lk)[1..];
      InnerJoinUniqueKeys(left[1..], right, lk, rk);
      MatchesAtMostOne(left[0], right, lk, rk);
      PairKeysAppend(m, rest, lk);
      var km := PairKeys(m, lk);
      var kr := PairKeys(rest, lk);
      forall x | x in kr ensures x != lk(left[0]) {
        var i :| 0 <= i < |rest| && kr[i] == x;
        var k :| 0 <= k < |left[1..]| && left[1..][k] == rest[i].0;
        assert Map(left, lk)[0] != Map(left, lk)[k + 1];
      }
      DistinctAppend(km, kr);
    }
  }

  /** With unique keys on both sides the joined table is no longer than the right table. */
  lemma InnerJoinNoLongerThanRight<L, R>(left: seq<L>, right: seq<R>, lk: L -> int, rk: R -> int)
    requires UniqueKeys(left, lk) && UniqueKeys(right, rk)
    ensures |InnerJoin(left, right, lk, rk)| <= |right|
  {
    var r := InnerJoin(left, right, lk, rk);
    InnerJoinUniqueKeys(left, right, lk, rk);
    var rks := Map(right, rk);
    forall x | x in PairKeys(r, lk) ensures x in rks {
      var i :| 0 <= i < |r| && PairKeys(r, lk)[i] == x;
      var k :| 0 <= k < |right| && right[k] == r[i].1;
      assert rks[k] == x;
    }
    DistinctLengthBound(PairKeys(r, lk), rks);
  }
}
