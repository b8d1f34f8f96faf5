/**
  The `templates` table behind `DrainParser._get_or_create_template_id`,
  as an in-memory map from template pattern to frequency. Rows are never
  deleted, so the AUTOINCREMENT id of a pattern is its insertion position
  plus one.
*/
module TemplateCatalog {
  import opened Wrappers
  import opened OrderedMap

  /** Pattern to frequency, in insertion (id) order. */
  type Catalog = Dict<string, nat>

  /** The id of `pattern`: its row position plus one. */
  function IdOf(c: Catalog, pattern: string): (r: Option<nat>)
    ensures r.Some? ==> 1 <= r.value <= |c| && c[r.value - 1].key == pattern
    ensures r.None? <==> !Has(c, pattern)
  {
    match Find(c, pattern)
    case Some(i) => Some(i + 1)
    case None => None
  }

  /** The frequency column of `pattern`, 0 when there is no row. */
  function FrequencyOf(c: Catalog, pattern: string): nat {
    Get(c, pattern).GetOr(0)
  }

  /** `SELECT SUM(frequency) FROM templates`, with 0 for an empty table. */
  function Total(c: Catalog): nat {
    SumValues(c)
  }

  /** Storing frequency `v` for `pattern` gives it the next id when it is new and moves no other row. */
  lemma PutIds(c: Catalog, pattern: string, v: nat)
    ensures IdOf(Put(c, pattern, v), pattern) == Some(if IdOf(c, pattern).Some? then IdOf(c, pattern).value else |c| + 1)
    ensures |Put(c, pattern, v)| == if IdOf(c, pattern).Some? then |c| else |c| + 1
    ensures FrequencyOf(Put(c, pattern, v), pattern) == v
    ensures forall q :: q != pattern ==> IdOf(Put(c, pattern, v), q) == IdOf(c, q)
    ensures forall q :: q != pattern ==> FrequencyOf(Put(c, pattern, v), q) == FrequencyOf(c, q)
  {
    FindPutSame(c, pattern, v);
    PutGet(c, pattern, v, pattern);
    forall q | q != pattern
      ensures IdOf(Put(c, pattern, v), q) == IdOf(c, q)
      ensures FrequencyOf(Put(c, pattern, v), q) == FrequencyOf(c, q)
    {
      FindPutOther(c, pattern, v, q);
      PutGet(c, pattern, v, q);
    }
  }

  /** The id a lookup returned, with the catalog after it. */
  datatype Lookup = Lookup(catalog: Catalog, id: nat)

  /**
    `_get_or_create_template_id`: an existing pattern keeps its id and its
    frequency goes up by one; a new pattern gets the next id and frequency 1.
    No other row changes.
  */
  function GetOrCreate(c: Catalog, pattern: string): (r: Lookup)
    ensures IdOf(r.catalog, pattern) == Some(r.id)
    ensures IdOf(c, pattern).Some? ==> r.id == IdOf(c, pattern).value && |r.catalog| == |c|
    ensures IdOf(c, pattern).None? ==> r.id == |c| + 1 && |r.catalog| == |c| + 1
    ensures FrequencyOf(r.catalog, pattern) == FrequencyOf(c, pattern) + 1
    ensures forall q :: q != pattern ==> IdOf(r.catalog, q) == IdOf(c, q) && FrequencyOf(r.catalog, q) == FrequencyOf(c, q)
    ensures Total(r.catalog) == Total(c) + 1
    ensures DistinctKeys(c) ==> DistinctKeys(r.catalog)
  {
    var f := FrequencyOf(c, pattern);
    var c' := Put(c, pattern, f + 1);
    PutIds(c, pattern, f + 1);
    PutKeepsDistinct(c, pattern, f + 1);
    SumValuesPut(c, pattern, f + 1);
    Lookup(c', if IdOf(c, pattern).Some? then IdOf(c, pattern).value else |c| + 1)
  }

  /** No pattern has been seen more often than all patterns together. */
  lemma FrequencyAtMostTotal(c: Catalog)
    ensures forall pattern :: FrequencyOf(c, pattern) <= Total(c)
  {
    forall pattern
      ensures FrequencyOf(c, pattern) <= Total(c)
    {
      SumValuesPut(c, pattern, 0);
    }
  }
  /** The frequencies of the given patterns, added up one pattern at a time. */
  function FrequencySum(c: Catalog, patterns: seq<string>): nat
    decreases |patterns|
  {
    if |patterns| == 0 then 0 else FrequencyOf(c, patterns[0]) + FrequencySum(c, patterns[1..])
  }

  /** With distinct patterns, the rows from position `j` on sum to the frequencies of their own patterns. */
  lemma {:induction false} FrequencySumSuffix(c: Catalog, j: nat)
    requires DistinctKeys(c)
    requires j <= |c|
    ensures FrequencySum(c, Keys(c)[j..]) == SumValues(c[j..])
    decreases |c| - j
  {
    if j < |c| {
      FrequencySumSuffix(c, j + 1);
      FindUnique(c, c[j].key, j);
      assert Keys(c)[j..][1..] == Keys(c)[j + 1..];
      assert c[j..][1..] == c[j + 1..];
    }
  }

  /**
    With distinct patterns, `SUM(frequency)` is the sum of each stored
    pattern's own frequency, and the ids in use are exactly 1 to the row count.
  */
  lemma CatalogRows(c: Catalog)
    ensures DistinctKeys(c) ==> Total(c) == FrequencySum(c, Keys(c))
    ensures DistinctKeys(c) ==> forall n :: 1 <= n <= |c| ==> IdOf(c, Keys(c)[n - 1]) == Some(n)
  {
    if DistinctKeys(c) {
      FrequencySumSuffix(c, 0);
      assert Keys(c)[0..] == Keys(c);
      assert c[0..] == c;
      forall n | 1 <= n <= |c|
        ensures IdOf(c, Keys(c)[n - 1]) == Some(n)
      {
        FindUnique(c, c[n - 1].key, n - 1);
      }
    }
  }
}
