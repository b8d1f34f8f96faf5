/**
  `DrainParser._calculate_similarity`: the Jaccard similarity of the token sets
  of two token sequences, defined as 1 when both sets are empty.
*/
module DrainSimilarity {

  function TokenSet(ts: seq<string>): set<string> {
    set t | t in ts
  }

  /** Jaccard similarity |A ∩ B| / |A ∪ B|, with 1 for two empty sets. */
  function Similarity(a: seq<string>, b: seq<string>): (r: real)
    ensures 0.0 <= r <= 1.0
    ensures TokenSet(a) == {} && TokenSet(b) == {} ==> r == 1.0
  {
    var sa, sb := TokenSet(a), TokenSet(b);
    SubsetCardinality(sa * sb, sa + sb);
    if |sa| == 0 && |sb| == 0 then 1.0
    else if |sa + sb| > 0 then
      RatioInUnit(|sa * sb|, |sa + sb|);
      (|sa * sb| as real) / (|sa + sb| as real)
    else 0.0
  }

  /** A count over a larger positive count lies in [0, 1]. */
  lemma RatioInUnit(x: nat, y: nat)
    requires 0 < y && x <= y
    ensures 0.0 <= (x as real) / (y as real) <= 1.0
  {
    var q := (x as real) / (y as real);
    assert q * (y as real) == x as real;
  }

  lemma SubsetCardinality<T>(x: set<T>, y: set<T>)
    requires x <= y
    ensures |x| <= |y|
    ensures |x| == |y| ==> x == y
  {
    var extra := y - x;
    assert y == x + extra && x * extra == {};
  }

  /** Similarity does not depend on the order of its arguments. */
  lemma SimilaritySymmetric(a: seq<string>, b: seq<string>)
    ensures Similarity(a, b) == Similarity(b, a)
  {
    var sa, sb := TokenSet(a), TokenSet(b);
    assert sa * sb == sb * sa;
    assert sa + sb == sb + sa;
  }

  /** Similarity is 1 exactly when both sequences use the same set of tokens. */
  lemma {:induction false} SimilarityOneIffSameTokens(a: seq<string>, b: seq<string>)
    ensures Similarity(a, b) == 1.0 <==> TokenSet(a) == TokenSet(b)
  {
    var sa, sb := TokenSet(a), TokenSet(b);
    if sa == sb {
      assert sa * sb == sa + sb;
    }
    if Similarity(a, b) == 1.0 && !(|sa| == 0 && |sb| == 0) {
      SubsetCardinality(sa * sb, sa + sb);
      assert |sa * sb| == |sa + sb|;
      assert sa * sb == sa + sb;
      assert sa == sb;
    }
  }

  /** A ratio of a count to a positive count is positive exactly when the count is. */
  lemma QuotientPositive(x: nat, y: nat)
    requires y > 0
    ensures (x as real) / (y as real) > 0.0 <==> x > 0
  {
    if x == 0 {
      assert (x as real) / (y as real) == 0.0;
    }
  }

  /** Similarity is positive exactly when the sequences share a token or are both empty. */
  lemma SimilarityPositiveIff(a: seq<string>, b: seq<string>)
    ensures Similarity(a, b) > 0.0 <==> (|a| == 0 && |b| == 0) || exists t :: t in a && t in b
  {
    var sa, sb := TokenSet(a), TokenSet(b);
    if |a| > 0 {
      assert a[0] in sa;
    }
    if |b| > 0 {
      assert b[0] in sb;
    }
    if exists t :: t in a && t in b {
      var t :| t in a && t in b;
      assert t in sa * sb;
    } else {
      assert sa * sb == {};
    }
    if !(|sa| == 0 && |sb| == 0) {
      SubsetCardinality(sa, sa + sb);
      SubsetCardinality(sb, sa + sb);
      QuotientPositive(|sa * sb|, |sa + sb|);
    }
  }
}
