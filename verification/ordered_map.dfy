/**
  A Python `dict` as the system uses it: an association list whose iteration
  order is the order in which keys were first inserted. Assigning to a present
  key replaces its value in place; assigning to an absent key appends it.
*/
module OrderedMap {
  import opened Wrappers

  datatype Entry<K, V> = Entry(key: K, value: V)

  type Dict<K, V> = seq<Entry<K, V>>

  /** `list(d.keys())`. */
  function Keys<K, V>(d: Dict<K, V>): (r: seq<K>)
    ensures |r| == |d|
    ensures forall i :: 0 <= i < |d| ==> r[i] == d[i].key
  {
    seq(|d|, i requires 0 <= i < |d| => d[i].key)
  }

  /** `list(d.values())`. */
  function Values<K, V>(d: Dict<K, V>): (r: seq<V>)
    ensures |r| == |d|
    ensures forall i :: 0 <= i < |d| ==> r[i] == d[i].value
  {
    seq(|d|, i requires 0 <= i < |d| => d[i].value)
  }

  /** No key is stored twice: the association list really is a map. */
  ghost predicate DistinctKeys<K, V>(d: Dict<K, V>) {
    forall i, j :: 0 <= i < j < |d| ==> d[i].key != d[j].key
  }

  /** The position of key `k`, if present. */
  function Find<K(==), V>(d: Dict<K, V>, k: K): (r: Option<nat>)
    ensures r.Some? ==> r.value < |d| && d[r.value].key == k
    ensures r.Some? ==> forall j :: 0 <= j < r.value ==> d[j].key != k
    ensures r.None? <==> forall j :: 0 <= j < |d| ==> d[j].key != k
  {
    if |d| == 0 then None
    else if d[0].key == k then Some(0)
    else match Find(d[1..], k)
      case Some(i) => Some(i + 1)
      case None => None
  }

  /** `d.get(k)`. */
  function Get<K(==), V>(d: Dict<K, V>, k: K): Option<V>
  {
    match Find(d, k)
    case Some(i) => Some(d[i].value)
    case None => None
  }

  /** `k in d`. */
  predicate Has<K(==), V>(d: Dict<K, V>, k: K) {
    Find(d, k).Some?
  }

  /** `k in d` exactly when `k` is among `d.keys()`. */
  lemma HasKeys<K, V>(d: Dict<K, V>, k: K)
    ensures Has(d, k) <==> k in Keys(d)
  {
    if k in Keys(d) {
      var i :| 0 <= i < |d| && Keys(d)[i] == k;
      assert d[i].key == k;
    }
  }

  /** `d[k] = v`. */
  function Put<K(==), V>(d: Dict<K, V>, k: K, v: V): Dict<K, V>
  {
    match Find(d, k)
    case Some(i) => d[i := Entry(k, v)]
    case None => d + [Entry(k, v)]
  }

  /** After `d[k] = v`, reading `k` gives `v` and every other key reads as before. */
  lemma PutGet<K, V>(d: Dict<K, V>, k: K, v: V, k': K)
    ensures Get(Put(d, k, v), k) == Some(v)
    ensures k' != k ==> Get(Put(d, k, v), k') == Get(d, k')
  {
    FindPutSame(d, k, v);
    if k' != k {
      FindPutOther(d, k, v, k');
      if Find(d, k').Some? && Find(d, k).Some? {
        assert Find(d, k).value != Find(d, k').value;
      }
    }
  }

  /** In a map with distinct keys, the one position holding `k` is where `Find` stops. */
  lemma FindUnique<K, V>(d: Dict<K, V>, k: K, i: nat)
    requires DistinctKeys(d)
    requires i < |d| && d[i].key == k
    ensures Find(d, k) == Some(i)
  {
  }

  /** `d[k] = v` keeps the keys distinct and keeps the insertion order of the existing keys. */
  lemma PutKeepsDistinct<K, V>(d: Dict<K, V>, k: K, v: V)
    ensures DistinctKeys(d) ==> DistinctKeys(Put(d, k, v))
    ensures Has(d, k) ==> Keys(Put(d, k, v)) == Keys(d)
    ensures !Has(d, k) ==> Keys(Put(d, k, v)) == Keys(d) + [k]
  {
  }

  /** The first position holding `k` is the one `Find` reports. */
  lemma FindFirst<K, V>(d: Dict<K, V>, k: K, i: nat)
    requires i < |d| && d[i].key == k
    requires forall j :: 0 <= j < i ==> d[j].key != k
    ensures Find(d, k) == Some(i)
  {
  }

  /** After `d[k] = v`, `k` is found where it was found before, or at the end when it is new. */
  lemma FindPutSame<K, V>(d: Dict<K, V>, k: K, v: V)
    ensures Find(Put(d, k, v), k) == Some(if Find(d, k).Some? then Find(d, k).value else |d|)
  {
    match Find(d, k)
    case Some(i) => FindFirst(Put(d, k, v), k, i);
    case None => FindFirst(Put(d, k, v), k, |d|);
  }

  /** `d[k] = v` does not move any other key, even when keys repeat. */
  lemma FindPutOther<K, V>(d: Dict<K, V>, k: K, v: V, q: K)
    requires q != k
    ensures Find(Put(d, k, v), q) == Find(d, q)
  {
    var r := Put(d, k, v);
    assert |r| >= |d|;
    assert forall j :: 0 <= j < |d| ==> r[j].key == d[j].key;
    match Find(d, q)
    case Some(j) => FindFirst(r, q, j);
    case None =>
  }

  /** `d[k] = v` never shortens the map or moves a present key, and places a new key after all the old ones. */
  lemma PutPlaces<K, V>(d: Dict<K, V>, k: K, v: V, q: K)
    ensures |Put(d, k, v)| >= |d|
    ensures Has(d, q) ==> Find(Put(d, k, v), q) == Find(d, q)
    ensures !Has(d, q) && Has(Put(d, k, v), q) ==> Find(Put(d, k, v), q).value >= |d|
  {
    assert |Put(d, k, v)| >= |d| by {
      match Find(d, k)
      case Some(i) =>
      case None =>
    }
    if q == k {
      FindPutSame(d, k, v);
    } else {
      FindPutOther(d, k, v, q);
    }
  }

  /** After `d[k] = v`, exactly the old keys and `k` are present. */
  lemma PutHas<K, V>(d: Dict<K, V>, k: K, v: V, q: K)
    ensures Has(Put(d, k, v), q) <==> Has(d, q) || q == k
  {
    if q == k {
      FindPutSame(d, k, v);
    } else {
      FindPutOther(d, k, v, q);
    }
  }

  /** The sum of the values of a map from keys to counts. */
  function SumValues<K>(d: Dict<K, nat>): nat {
    if |d| == 0 then 0 else d[0].value + SumValues(d[1..])
  }

  lemma {:induction false} SumValuesAppend<K>(d: Dict<K, nat>, e: Entry<K, nat>)
    ensures SumValues(d + [e]) == SumValues(d) + e.value
  {
    if |d| > 0 {
      assert (d + [e])[1..] == d[1..] + [e];
      SumValuesAppend(d[1..], e);
    }
  }

  lemma {:induction false} SumValuesUpdate<K>(d: Dict<K, nat>, i: nat, e: Entry<K, nat>)
    requires i < |d|
    ensures SumValues(d[i := e]) + d[i].value == SumValues(d) + e.value
  {
    if i > 0 {
      assert d[i := e][1..] == d[1..][i - 1 := e];
      SumValuesUpdate(d[1..], i - 1, e);
    }
  }

  /** `d[k] = v` replaces the count stored for `k` (0 when absent) by `v` in the sum. */
  lemma SumValuesPut<K>(d: Dict<K, nat>, k: K, v: nat)
    ensures SumValues(Put(d, k, v)) == SumValues(d) - Get(d, k).GetOr(0) + v
  {
    match Find(d, k)
    case Some(i) => SumValuesUpdate(d, i, Entry(k, v));
    case None => SumValuesAppend(d, Entry(k, v));
  }
}
