/**
 * The item-bin index of the orchestrator, on values: bin `b` lists, in roster
 * order, the entities whose score is `b`; the index has one bin per possible
 * score 0..n. `scores[k]` is the score of `xs[k]`.
 */
module Bins {

  /** The members of `xs` whose score is `b`, in roster order. */
  function Bin<T>(xs: seq<T>, scores: seq<int>, b: int): seq<T>
    requires |xs| == |scores|
  {
    if xs == [] then []
    else
      var m := |xs| - 1;
      Bin(xs[..m], scores[..m], b) + (if scores[m] == b then [xs[m]] else [])
  }

  /** One bin per possible score 0..n, each holding exactly the entities with that score. */
  function BinIndex<T>(xs: seq<T>, scores: seq<int>, n: nat): (bins: map<int, seq<T>>)
    requires |xs| == |scores|
    ensures forall b :: b in bins <==> 0 <= b <= n
  {
    map b | 0 <= b <= n :: Bin(xs, scores, b)
  }

  /** The list of bin sizes `[len(bins[str(b)]) for b in range(n + 1)]`. */
  function BinCounts<T>(bins: map<int, seq<T>>, n: nat): (c: seq<int>)
    requires forall b :: 0 <= b <= n ==> b in bins
    ensures |c| == n + 1
    ensures forall b :: 0 <= b <= n ==> c[b] == |bins[b]|
  {
    seq(n + 1, b requires 0 <= b <= n => |bins[b]|)
  }

  function Sum(s: seq<int>): int
  {
    if s == [] then 0 else Sum(s[..|s| - 1]) + s[|s| - 1]
  }

  /** No element occurs twice: the last one is not among the others, which are themselves distinct. */
  predicate Distinct<T(==)>(xs: seq<T>)
  {
    |xs| <= 1 || (xs[|xs| - 1] !in xs[..|xs| - 1] && Distinct(xs[..|xs| - 1]))
  }

  /** Two positions of a sequence without repetitions that hold the same element are one position. */
  lemma {:induction false} DistinctApart<T>(xs: seq<T>, i: nat, j: nat)
    requires Distinct(xs) && i < |xs| && j < |xs| && xs[i] == xs[j]
    ensures i == j
  {
    var m := |xs| - 1;
    if i < m && j < m {
      DistinctApart(xs[..m], i, j);
    }
  }

  /** The element-wise reading of Distinct. */
  lemma DistinctPairwise<T>(xs: seq<T>)
    requires Distinct(xs)
    ensures forall i, j :: 0 <= i < j < |xs| ==> xs[i] != xs[j]
  {
    forall i, j | 0 <= i < j < |xs|
      ensures xs[i] != xs[j]
    {
      if xs[i] == xs[j] {
        DistinctApart(xs, i, j);
      }
    }
  }

  /** A sequence whose positions all hold different elements is Distinct. */
  lemma {:induction false} PairwiseDistinct<T>(xs: seq<T>)
    requires forall i, j :: 0 <= i < j < |xs| ==> xs[i] != xs[j]
    ensures Distinct(xs)
  {
    if |xs| > 1 {
      var m := |xs| - 1;
      PairwiseDistinct(xs[..m]);
      assert forall i :: 0 <= i < m ==> xs[..m][i] != xs[m];
    }
  }

  /** Every member of bin `b` is an entity of `xs` whose score is `b`. */
  lemma {:induction false} BinMembers<T>(xs: seq<T>, scores: seq<int>, b: int, i: nat)
    requires |xs| == |scores| && i < |Bin(xs, scores, b)|
    ensures exists k :: 0 <= k < |xs| && xs[k] == Bin(xs, scores, b)[i] && scores[k] == b
  {
    var m := |xs| - 1;
    var prefix := Bin(xs[..m], scores[..m], b);
    if i < |prefix| {
      BinMembers(xs[..m], scores[..m], b, i);
      var k :| 0 <= k < m && xs[..m][k] == prefix[i] && scores[..m][k] == b;
      assert xs[k] == Bin(xs, scores, b)[i] && scores[k] == b;
    } else {
      assert xs[m] == Bin(xs, scores, b)[i] && scores[m] == b;
    }
  }

  /** An entity of a roster without repetitions sits in bin `b` exactly when its score is `b`. */
  lemma {:induction false} BinHolds<T>(xs: seq<T>, scores: seq<int>, b: int, k: nat)
    requires |xs| == |scores| && Distinct(xs) && k < |xs|
    ensures xs[k] in Bin(xs, scores, b) <==> scores[k] == b
  {
    var m := |xs| - 1;
    if k < m {
      BinHolds(xs[..m], scores[..m], b, k);
      assert xs[..m][k] == xs[k];
    } else {
      if xs[k] in Bin(xs[..m], scores[..m], b) {
        var i :| 0 <= i < |Bin(xs[..m], scores[..m], b)| && Bin(xs[..m], scores[..m], b)[i] == xs[k];
        BinMembers(xs[..m], scores[..m], b, i);
        assert false;
      }
    }
  }

  /** No entity appears twice in one bin. */
  lemma {:induction false} BinDistinct<T>(xs: seq<T>, scores: seq<int>, b: int)
    requires |xs| == |scores| && Distinct(xs)
    ensures Distinct(Bin(xs, scores, b))
  {
    if xs != [] {
      var m := |xs| - 1;
      var prefix := Bin(xs[..m], scores[..m], b);
      BinDistinct(xs[..m], scores[..m], b);
      if scores[m] == b {
        assert xs[m] !in prefix by {
          forall i | 0 <= i < |prefix|
            ensures prefix[i] != xs[m]
          {
            BinMembers(xs[..m], scores[..m], b, i);
            var k :| 0 <= k < m && xs[..m][k] == prefix[i] && scores[..m][k] == b;
            assert xs[..m][k] == xs[k];
          }
        }
        assert (prefix + [xs[m]])[..|prefix|] == prefix;
      } else {
        assert prefix + [] == prefix;
      }
    }
  }

  /** Changing one entry of a sequence changes its sum by the difference. */
  lemma {:induction false} SumUpdate(s: seq<int>, c: nat, v: int)
    requires c < |s|
    ensures Sum(s[c := v]) == Sum(s) - s[c] + v
  {
    var m := |s| - 1;
    if c == m {
      assert s[c := v][..m] == s[..m];
    } else {
      SumUpdate(s[..m], c, v);
      assert s[c := v][..m] == s[..m][c := v];
    }
  }

  /** Appending one entity with score c, 0 <= c <= n, adds one to bin c and to no other. */
  lemma BinCountsSnoc<T>(xs: seq<T>, scores: seq<int>, x: T, c: int, n: nat)
    requires |xs| == |scores| && 0 <= c <= n
    ensures BinCounts(BinIndex(xs + [x], scores + [c], n), n)
         == BinCounts(BinIndex(xs, scores, n), n)[c := BinCounts(BinIndex(xs, scores, n), n)[c] + 1]
  {
    var xs', scores' := xs + [x], scores + [c];
    assert xs'[..|xs|] == xs && scores'[..|xs|] == scores;
    forall b | 0 <= b <= n
      ensures |Bin(xs', scores', b)| == |Bin(xs, scores, b)| + (if b == c then 1 else 0)
    {
    }
  }

  /** Appending an entity with score c, 0 <= c <= n, appends it to bin c and leaves the other bins alone. */
  lemma BinIndexSnoc<T>(xs: seq<T>, scores: seq<int>, x: T, c: int, n: nat)
    requires |xs| == |scores| && 0 <= c <= n
    ensures BinIndex(xs + [x], scores + [c], n) == BinIndex(xs, scores, n)[c := BinIndex(xs, scores, n)[c] + [x]]
  {
    var xs', scores' := xs + [x], scores + [c];
    assert xs'[..|xs|] == xs && scores'[..|xs|] == scores;
    var lhs, rhs := BinIndex(xs', scores', n), BinIndex(xs, scores, n)[c := BinIndex(xs, scores, n)[c] + [x]];
    assert lhs.Keys == rhs.Keys;
    forall b | b in lhs
      ensures lhs[b] == rhs[b]
    {
      assert lhs[b] == Bin(xs', scores', b) == Bin(xs, scores, b) + (if b == c then [x] else []);
    }
  }

  /** The same step on prefixes: the index of the first k + 1 entities from that of the first k. */
  lemma BinIndexPrefix<T>(xs: seq<T>, scores: seq<int>, k: nat, n: nat)
    requires |xs| == |scores| && k < |xs| && 0 <= scores[k] <= n
    ensures BinIndex(xs[..k + 1], scores[..k + 1], n) ==
            BinIndex(xs[..k], scores[..k], n)[scores[k] := BinIndex(xs[..k], scores[..k], n)[scores[k]] + [xs[k]]]
  {
    BinIndexSnoc(xs[..k], scores[..k], xs[k], scores[k], n);
    assert xs[..k + 1] == xs[..k] + [xs[k]] && scores[..k + 1] == scores[..k] + [scores[k]];
  }

  /**
   * In the index of a roster without repetitions whose scores lie in 0..n,
   * every entity sits in the bin of its score and in no other, once.
   */
  lemma EachInOneBin<T>(xs: seq<T>, scores: seq<int>, n: nat, k: nat)
    requires |xs| == |scores| && Distinct(xs) && k < |xs| && 0 <= scores[k] <= n
    ensures forall b :: b in BinIndex(xs, scores, n) ==> (xs[k] in BinIndex(xs, scores, n)[b] <==> b == scores[k])
    ensures Distinct(BinIndex(xs, scores, n)[scores[k]])
  {
    forall b | b in BinIndex(xs, scores, n)
      ensures xs[k] in BinIndex(xs, scores, n)[b] <==> b == scores[k]
    {
      BinHolds(xs, scores, b, k);
    }
    BinDistinct(xs, scores, scores[k]);
  }

  /**
   * The bin of every position of a list that concatenates bins 0, 1, ... in
   * order, bin b holding counts[b] entries.
   */
  function BinLabels(counts: seq<int>): (labels: seq<int>)
    ensures forall j :: 0 <= j < |labels| ==> 0 <= labels[j] < |counts|
  {
    if counts == [] then []
    else
      var m := |counts| - 1;
      BinLabels(counts[..m]) + seq(if counts[m] < 0 then 0 else counts[m], _ => m)
  }

  /** Taking one more count appends that many labels of the new bin. */
  lemma BinLabelsSnoc(counts: seq<int>, b: nat)
    requires b < |counts| && counts[b] >= 0
    ensures BinLabels(counts[..b + 1]) == BinLabels(counts[..b]) + seq(counts[b], _ => b)
  {
    assert counts[..b + 1][..b] == counts[..b];
  }

  /** With no negative count, the concatenated list is as long as the counts add up to. */
  lemma {:induction false} BinLabelsLength(counts: seq<int>)
    requires forall b :: 0 <= b < |counts| ==> counts[b] >= 0
    ensures |BinLabels(counts)| == Sum(counts)
  {
    if counts != [] {
      BinLabelsLength(counts[..|counts| - 1]);
    }
  }

  /** When every score is in 0..n, the bins of the index together hold the whole roster. */
  lemma {:induction false} BinCountsTotal<T>(xs: seq<T>, scores: seq<int>, n: nat)
    requires |xs| == |scores|
    requires forall k :: 0 <= k < |scores| ==> 0 <= scores[k] <= n
    ensures Sum(BinCounts(BinIndex(xs, scores, n), n)) == |xs|
  {
    if xs == [] {
      var zeros := BinCounts(BinIndex(xs, scores, n), n);
      ZeroSum(zeros);
    } else {
      var m := |xs| - 1;
      BinCountsTotal(xs[..m], scores[..m], n);
      assert xs == xs[..m] + [xs[m]] && scores == scores[..m] + [scores[m]];
      BinCountsSnoc(xs[..m], scores[..m], xs[m], scores[m], n);
      SumUpdate(BinCounts(BinIndex(xs[..m], scores[..m], n), n), scores[m],
                BinCounts(BinIndex(xs[..m], scores[..m], n), n)[scores[m]] + 1);
    }
  }

  lemma {:induction false} ZeroSum(s: seq<int>)
    requires forall k :: 0 <= k < |s| ==> s[k] == 0
    ensures Sum(s) == 0
  {
    if s != [] {
      ZeroSum(s[..|s| - 1]);
    }
  }
}
