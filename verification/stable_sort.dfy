/**
  Python's `sorted(xs, key=score, reverse=True)`: a stable sort by non-increasing
  score, in which elements with equal scores keep their original relative order.
  It is computed on positions: the result lists the indices of `keys`, ordered
  by score descending and, among equal scores, by index ascending.
*/
module StableSort {

  /** Position `a` comes before position `b` in the stable descending order. */
  predicate Before(keys: seq<real>, a: nat, b: nat)
    requires a < |keys| && b < |keys|
  {
    keys[a] > keys[b] || (keys[a] == keys[b] && a < b)
  }

  predicate InRange(keys: seq<real>, s: seq<nat>) {
    forall i :: 0 <= i < |s| ==> s[i] < |keys|
  }

  predicate Ordered(keys: seq<real>, s: seq<nat>)
    requires InRange(keys, s)
  {
    forall i, j :: 0 <= i < j < |s| ==> Before(keys, s[i], s[j])
  }

  /** The indices `0 .. n-1` in increasing order. */
  function Range(n: nat): (r: seq<nat>)
    ensures |r| == n
    ensures forall i :: 0 <= i < n ==> r[i] == i
  {
    seq(n, i requires 0 <= i < n => i)
  }

  /** Inserts position `x`, larger than every position in `s`, into the ordered `s`. */
  function Insert(keys: seq<real>, s: seq<nat>, x: nat): (r: seq<nat>)
    requires InRange(keys, s) && Ordered(keys, s)
    requires x < |keys|
    requires forall i :: 0 <= i < |s| ==> s[i] < x
    ensures |r| == |s| + 1
    ensures InRange(keys, r) && Ordered(keys, r)
    ensures multiset(r) == multiset(s) + multiset{x}
  {
    if |s| == 0 then [x]
    else if keys[s[0]] >= keys[x] then
      var rest := Insert(keys, s[1..], x);
      HeadBeforeAll(keys, s, x, rest);
      OrderedCons(keys, s[0], rest);
      assert s == [s[0]] + s[1..];
      [s[0]] + rest
    else
      OrderedCons(keys, x, s);
      [x] + s
  }

  lemma HeadBeforeAll(keys: seq<real>, s: seq<nat>, x: nat, rest: seq<nat>)
    requires InRange(keys, s) && Ordered(keys, s) && |s| > 0
    requires x < |keys| && s[0] < x && keys[s[0]] >= keys[x]
    requires multiset(rest) == multiset(s[1..]) + multiset{x}
    ensures forall j :: 0 <= j < |rest| ==> rest[j] < |keys| && Before(keys, s[0], rest[j])
  {
    forall j | 0 <= j < |rest|
      ensures rest[j] < |keys| && Before(keys, s[0], rest[j])
    {
      assert rest[j] in multiset(rest);
      if rest[j] != x {
        var k :| 0 <= k < |s[1..]| && s[1..][k] == rest[j];
        assert s[k + 1] == rest[j];
      }
    }
  }

  lemma OrderedCons(keys: seq<real>, a: nat, t: seq<nat>)
    requires a < |keys| && InRange(keys, t) && Ordered(keys, t)
    requires forall j :: 0 <= j < |t| ==> Before(keys, a, t[j])
    ensures InRange(keys, [a] + t) && Ordered(keys, [a] + t)
  {
    var r := [a] + t;
    forall i, j | 0 <= i < j < |r|
      ensures Before(keys, r[i], r[j])
    {
      if i == 0 {
        assert r[j] == t[j - 1];
      } else {
        assert r[i] == t[i - 1] && r[j] == t[j - 1];
      }
    }
  }

  /** Sorts positions `0 .. n-1` by inserting them one after another. */
  function SortPrefix(keys: seq<real>, n: nat): (r: seq<nat>)
    requires n <= |keys|
    ensures InRange(keys, r) && Ordered(keys, r)
    ensures multiset(r) == multiset(Range(n))
  {
    if n == 0 then []
    else
      var s := SortPrefix(keys, n - 1);
      assert Range(n) == Range(n - 1) + [n - 1];
      assert forall i :: 0 <= i < |s| ==> s[i] in multiset(Range(n - 1));
      Insert(keys, s, n - 1)
  }

  /**
    The stable descending order of positions: a permutation of `0 .. |keys|-1`
    with non-increasing scores, and equal scores in increasing position.
  */
  function Order(keys: seq<real>): (r: seq<nat>)
    ensures |r| == |keys|
    ensures InRange(keys, r)
    ensures forall i :: 0 <= i < |keys| ==> i in r
    ensures forall i, j :: 0 <= i < j < |r| ==> r[i] != r[j]
    ensures forall i, j :: 0 <= i < j < |r| ==> keys[r[i]] >= keys[r[j]]
    ensures forall i, j :: 0 <= i < j < |r| && keys[r[i]] == keys[r[j]] ==> r[i] < r[j]
  {
    var r := SortPrefix(keys, |keys|);
    assert |r| == |keys| by {
      assert |multiset(r)| == |multiset(Range(|keys|))|;
    }
    forall i | 0 <= i < |keys|
      ensures i in r
    {
      assert Range(|keys|)[i] == i;
      assert i in multiset(Range(|keys|));
    }
    r
  }

  /** `xs` rearranged into the stable descending order of `keys`. */
  function SortDesc<T>(xs: seq<T>, keys: seq<real>): (r: seq<T>)
    requires |keys| == |xs|
    ensures |r| == |xs|
    ensures forall i :: 0 <= i < |r| ==> r[i] == xs[Order(keys)[i]]
  {
    var p := Order(keys);
    seq(|xs|, i requires 0 <= i < |xs| => xs[p[i]])
  }

  /**
    `sorted(xs, reverse=True)[:k]`: the first `k` elements in the stable
    descending order. No element left out scores above one kept, and one
    left out that ties a kept one comes later in `xs`.
  */
  function TopK<T>(xs: seq<T>, keys: seq<real>, k: nat): (r: seq<T>)
    requires |keys| == |xs|
    ensures |r| == if k <= |xs| then k else |xs|
    ensures forall i :: 0 <= i < |r| ==> r[i] == xs[Order(keys)[i]]
    ensures forall i, j :: 0 <= i < |r| && 0 <= j < |xs| && j !in Order(keys)[..|r|] ==> keys[Order(keys)[i]] >= keys[j]
    ensures forall i, j :: 0 <= i < |r| && 0 <= j < |xs| && j !in Order(keys)[..|r|] && keys[Order(keys)[i]] == keys[j] ==> Order(keys)[i] < j
  {
    var n := if k <= |xs| then k else |xs|;
    OrderCutoff(keys, n);
    SortDesc(xs, keys)[..n]
  }

  /** A position outside the first `n` of the order comes after each of them. */
  lemma OrderCutoff(keys: seq<real>, n: nat)
    requires n <= |keys|
    ensures forall i, j :: 0 <= i < n && 0 <= j < |keys| && j !in Order(keys)[..n] ==>
      keys[Order(keys)[i]] >= keys[j] && (keys[Order(keys)[i]] == keys[j] ==> Order(keys)[i] < j)
  {
    var p := Order(keys);
    forall i, j | 0 <= i < n && 0 <= j < |keys| && j !in p[..n]
      ensures keys[p[i]] >= keys[j] && (keys[p[i]] == keys[j] ==> p[i] < j)
    {
      assert j in p;
      var m :| 0 <= m < |p| && p[m] == j;
    }
  }
}
