/**
  `RAGRetriever.retrieve_relevant_logs`: three candidate lists (logs sharing
  the incident's template, logs ranked by embedding similarity, and a keyword
  search used only when both are empty) merged into one dictionary keyed by
  log id, then sorted by score and cut to `top_k`.

  The database queries and the embedding scores are inputs: the template list
  and the scored rows are given, and the keyword search is a function.
*/
module RagRetrieval {
  import opened Wrappers
  import opened Text
  import opened OrderedMap
  import opened StableSort

  /** One retrieved log: its id (absent when the row has none), line, time, score and how it was found. */
  datatype LogEntry = LogEntry(logId: Option<int>, line: string, timestamp: string, similarity: real, via: string)

  /** Python truthiness of a `log_id`: present and non-zero. */
  predicate Truthy(id: Option<int>) {
    id.Some? && id.value != 0
  }

  const TEMPLATE_SCORE := 0.9
  const KEYWORD_SCORE := 0.5
  /** The `LIMIT 100` of the embedding query. */
  const SEMANTIC_ROWS := 100
  const MAX_KEYWORDS := 3
  const PER_KEYWORD := 5

  function Sims(es: seq<LogEntry>): (r: seq<real>)
    ensures |r| == |es|
    ensures forall i :: 0 <= i < |es| ==> r[i] == es[i].similarity
  {
    seq(|es|, i requires 0 <= i < |es| => es[i].similarity)
  }

  /** Non-increasing similarity. */
  predicate Sorted(es: seq<LogEntry>) {
    forall i, j :: 0 <= i < j < |es| ==> es[i].similarity >= es[j].similarity
  }

  /** `sorted(es, key=similarity, reverse=True)[:k]`. */
  function TopBySimilarity(es: seq<LogEntry>, k: nat): (r: seq<LogEntry>)
    ensures |r| == if k <= |es| then k else |es|
    ensures Sorted(r)
    ensures forall i :: 0 <= i < |r| ==> r[i] in es
    ensures forall i, j :: 0 <= i < |r| && 0 <= j < |es| && es[j] !in r ==> r[i].similarity >= es[j].similarity
  {
    TopSorted(es, k);
    TopDominates(es, k);
    TopK(es, Sims(es), k)
  }

  lemma TopSorted(es: seq<LogEntry>, k: nat)
    ensures Sorted(TopK(es, Sims(es), k))
    ensures forall i :: 0 <= i < |TopK(es, Sims(es), k)| ==> TopK(es, Sims(es), k)[i] in es
  {
    var keys := Sims(es);
    var r := TopK(es, keys, k);
    var p := Order(keys);
    forall i, j | 0 <= i < j < |r|
      ensures r[i].similarity >= r[j].similarity
    {
      assert r[i] == es[p[i]] && r[j] == es[p[j]];
    }
  }

  lemma TopDominates(es: seq<LogEntry>, k: nat)
    ensures var r := TopK(es, Sims(es), k);
      forall i, j :: 0 <= i < |r| && 0 <= j < |es| && es[j] !in r ==> r[i].similarity >= es[j].similarity
  {
    var keys := Sims(es);
    var r := TopK(es, keys, k);
    var p := Order(keys);
    forall i, j | 0 <= i < |r| && 0 <= j < |es| && es[j] !in r
      ensures r[i].similarity >= es[j].similarity
    {
      forall m | 0 <= m < |r|
        ensures p[m] != j
      {
        assert r[m] == es[p[m]];
      }
      assert j !in p[..|r|];
      assert keys[p[i]] >= keys[j];
      assert r[i] == es[p[i]];
    }
  }

  // ---------------------------------------------------------------------------
  // Semantic candidates
  // ---------------------------------------------------------------------------

  /**
    A row of the embedding query: its cosine similarity to the query when
    the stored embedding decodes, `None` when it is empty or fails to decode
    (such a row is skipped).
  */
  datatype SemanticRow = SemanticRow(logId: Option<int>, line: string, timestamp: string, similarity: Option<real>)

  function SemanticEntry(row: SemanticRow): LogEntry
    requires row.similarity.Some?
  {
    LogEntry(row.logId, row.line, row.timestamp, row.similarity.value, "semantic")
  }

  /** Row `j` is among the first 100 and its embedding decodes. */
  predicate Scored(rows: seq<SemanticRow>, j: int) {
    0 <= j < |rows| && j < SEMANTIC_ROWS && rows[j].similarity.Some?
  }

  /**
    Step 2: of the scored rows among the first 100, the `top_k` most similar,
    best first; a scored row left out is no more similar than any row kept.
  */
  function SemanticLogs(rows: seq<SemanticRow>, topK: nat): (r: seq<LogEntry>)
    ensures |r| == if topK <= |Candidates(rows)| then topK else |Candidates(rows)|
    ensures |r| <= SEMANTIC_ROWS
    ensures Sorted(r)
    ensures forall i :: 0 <= i < |r| ==> (r[i].via == "semantic" &&
      exists j :: Scored(rows, j) && r[i] == SemanticEntry(rows[j]))
    ensures forall i, j :: 0 <= i < |r| && Scored(rows, j) && SemanticEntry(rows[j]) !in r ==>
      r[i].similarity >= rows[j].similarity.value
  {
    SemanticFacts(rows, topK);
    TopBySimilarity(Candidates(rows), topK)
  }

  /**
    `SemanticLogs` names its rows: `idx` gives the row of each entry, no row
    twice. Rows of equal similarity keep row order, and a scored row left
    out is no more similar than any row kept, and comes after it on a tie,
    as Python's stable `sort` leaves them.
  */
  lemma SemanticLogsFrom(rows: seq<SemanticRow>, topK: nat) returns (idx: seq<nat>)
    ensures |idx| == |SemanticLogs(rows, topK)|
    ensures forall i :: 0 <= i < |idx| ==> Scored(rows, idx[i]) && SemanticLogs(rows, topK)[i] == SemanticEntry(rows[idx[i]])
    ensures forall i, j :: 0 <= i < j < |idx| ==> idx[i] != idx[j]
    ensures forall i, j :: 0 <= i < j < |idx| && rows[idx[i]].similarity == rows[idx[j]].similarity ==> idx[i] < idx[j]
    ensures forall i, j :: 0 <= i < |idx| && Scored(rows, j) && j !in idx ==>
      rows[j].similarity.value <= rows[idx[i]].similarity.value &&
      (rows[j].similarity.value == rows[idx[i]].similarity.value ==> idx[i] < j)
  {
    var es := Candidates(rows);
    var c := CandidatesFrom(rows);
    assert RowIndex(rows, es, c);
    assert SemanticLogs(rows, topK) == TopK(es, Sims(es), topK);
    idx := TopRows(es, c, topK);
    forall i | 0 <= i < |idx|
      ensures Scored(rows, idx[i]) && SemanticLogs(rows, topK)[i] == SemanticEntry(rows[idx[i]])
    {
      TopRowsAt(rows, es, c, topK, i);
    }
    forall i, j | 0 <= i < j < |idx|
      ensures idx[i] != idx[j]
      ensures rows[idx[i]].similarity == rows[idx[j]].similarity ==> idx[i] < idx[j]
    {
      TopRowsPair(rows, es, c, topK, i, j);
    }
    forall i, j | 0 <= i < |idx| && Scored(rows, j) && j !in idx
      ensures rows[j].similarity.value <= rows[idx[i]].similarity.value
      ensures rows[j].similarity.value == rows[idx[i]].similarity.value ==> idx[i] < j
    {
      TopRowsCutoff(rows, es, c, topK, i, j);
    }
  }

  /** `c` names, in increasing order, the scored row of each entry of `es`, and every scored row. */
  ghost predicate RowIndex(rows: seq<SemanticRow>, es: seq<LogEntry>, c: seq<nat>) {
    |c| == |es| &&
    (forall i :: 0 <= i < |c| ==> Scored(rows, c[i]) && es[i] == SemanticEntry(rows[c[i]])) &&
    (forall i, j :: 0 <= i < j < |c| ==> c[i] < c[j]) &&
    (forall j :: Scored(rows, j) ==> j in c)
  }

  /** The rows, named by `c`, of the `k` best entries of `es`. */
  function TopRows(es: seq<LogEntry>, c: seq<nat>, k: nat): (idx: seq<nat>)
    requires |c| == |es|
    ensures |idx| == |TopK(es, Sims(es), k)|
    ensures forall i :: 0 <= i < |idx| ==> idx[i] == c[Order(Sims(es))[i]]
  {
    var p := Order(Sims(es));
    var n := |TopK(es, Sims(es), k)|;
    seq(n, i requires 0 <= i < n => c[p[i]])
  }

  lemma TopRowsAt(rows: seq<SemanticRow>, es: seq<LogEntry>, c: seq<nat>, k: nat, i: nat)
    requires RowIndex(rows, es, c) && i < |TopRows(es, c, k)|
    ensures var idx := TopRows(es, c, k);
      Scored(rows, idx[i]) && TopK(es, Sims(es), k)[i] == SemanticEntry(rows[idx[i]]) &&
      Sims(es)[Order(Sims(es))[i]] == rows[idx[i]].similarity.value
  {
    var p := Order(Sims(es));
    assert TopK(es, Sims(es), k)[i] == es[p[i]];
  }

  lemma TopRowsPair(rows: seq<SemanticRow>, es: seq<LogEntry>, c: seq<nat>, k: nat, i: nat, j: nat)
    requires RowIndex(rows, es, c) && i < j < |TopRows(es, c, k)|
    ensures var idx := TopRows(es, c, k);
      idx[i] != idx[j] && (rows[idx[i]].similarity == rows[idx[j]].similarity ==> idx[i] < idx[j])
  {
    var p := Order(Sims(es));
    TopRowsAt(rows, es, c, k, i);
    TopRowsAt(rows, es, c, k, j);
    assert p[i] != p[j];
    if p[i] > p[j] {
      assert c[p[j]] < c[p[i]];
    }
  }

  lemma TopRowsCutoff(rows: seq<SemanticRow>, es: seq<LogEntry>, c: seq<nat>, k: nat, i: nat, j: nat)
    requires RowIndex(rows, es, c)
    ensures var idx := TopRows(es, c, k);
      i < |idx| && Scored(rows, j) && j !in idx ==>
        rows[j].similarity.value <= rows[idx[i]].similarity.value &&
        (rows[j].similarity.value == rows[idx[i]].similarity.value ==> idx[i] < j)
  {
    var p := Order(Sims(es));
    var idx := TopRows(es, c, k);
    if i < |idx| && Scored(rows, j) && j !in idx {
      TopRowsAt(rows, es, c, k, i);
      var q :| 0 <= q < |c| && c[q] == j;
      assert q !in p[..|idx|] by {
        forall t | 0 <= t < |idx|
          ensures p[t] != q
        {
          assert idx[t] == c[p[t]];
        }
      }
      assert Sims(es)[q] == rows[j].similarity.value;
      if p[i] > q {
        assert c[q] < c[p[i]];
      }
    }
  }

  /** The entries of the scored rows among the first 100, in row order. */
  function Candidates(rows: seq<SemanticRow>): (es: seq<LogEntry>)
    ensures |es| <= SEMANTIC_ROWS
    ensures forall j :: Scored(rows, j) ==> SemanticEntry(rows[j]) in es
  {
    var rs := Take(rows, SEMANTIC_ROWS);
    var es := Decoded(rs);
    assert forall j :: Scored(rows, j) ==> SemanticEntry(rows[j]) in es by {
      forall j | Scored(rows, j)
        ensures SemanticEntry(rows[j]) in es
      {
        assert rows[j] == rs[j];
      }
    }
    es
  }

  /**
    The candidates are exactly the scored rows, in row order: `idx` names
    the row of each candidate, increasing, and lists every scored row.
  */
  lemma CandidatesFrom(rows: seq<SemanticRow>) returns (idx: seq<nat>)
    ensures |idx| == |Candidates(rows)|
    ensures forall i :: 0 <= i < |idx| ==> Scored(rows, idx[i]) && Candidates(rows)[i] == SemanticEntry(rows[idx[i]])
    ensures forall i, j :: 0 <= i < j < |idx| ==> idx[i] < idx[j]
    ensures forall j :: Scored(rows, j) ==> j in idx
  {
    var rs := Take(rows, SEMANTIC_ROWS);
    idx := DecodedFrom(rs);
    assert Decoded(rs) == Candidates(rows);
    forall i | 0 <= i < |idx|
      ensures Scored(rows, idx[i]) && Candidates(rows)[i] == SemanticEntry(rows[idx[i]])
    {
      assert rs[idx[i]] == rows[idx[i]];
    }
    forall j | Scored(rows, j)
      ensures j in idx
    {
      assert rs[j] == rows[j];
    }
  }

  /** The entries of the rows whose embedding decodes, in row order. */
  function Decoded(rows: seq<SemanticRow>): (es: seq<LogEntry>)
    ensures |es| <= |rows|
    ensures forall j :: 0 <= j < |rows| && rows[j].similarity.Some? ==> SemanticEntry(rows[j]) in es
  {
    if |rows| == 0 then []
    else
      var first := if rows[0].similarity.Some? then [SemanticEntry(rows[0])] else [];
      var rest := Decoded(rows[1..]);
      assert forall j :: 1 <= j < |rows| && rows[j].similarity.Some? ==> SemanticEntry(rows[j]) in rest by {
        forall j | 1 <= j < |rows| && rows[j].similarity.Some?
          ensures SemanticEntry(rows[j]) in rest
        {
          assert rows[1..][j - 1] == rows[j];
        }
      }
      first + rest
  }

  /**
    `Decoded` keeps only rows that decode: `idx` lists, in increasing order,
    the row each entry comes from.
  */
  lemma {:induction false} DecodedFrom(rows: seq<SemanticRow>) returns (idx: seq<nat>)
    ensures DecodedAt(rows, Decoded(rows), idx)
    ensures AllDecodedIn(rows, idx)
  {
    if |rows| == 0 {
      idx := [];
    } else {
      var rest := DecodedFrom(rows[1..]);
      idx := DecodedFromStep(rows, rest);
    }
  }

  /** `idx` lists, in increasing order, a decoding row of `rows` for each entry of `es`. */
  ghost predicate DecodedAt(rows: seq<SemanticRow>, es: seq<LogEntry>, idx: seq<nat>) {
    |idx| == |es| &&
    (forall i :: 0 <= i < |idx| ==> idx[i] < |rows| && rows[idx[i]].similarity.Some? && es[i] == SemanticEntry(rows[idx[i]])) &&
    (forall i, j :: 0 <= i < j < |idx| ==> idx[i] < idx[j])
  }

  /** Every row whose embedding decodes is listed in `idx`. */
  ghost predicate AllDecodedIn(rows: seq<SemanticRow>, idx: seq<nat>) {
    forall j :: 0 <= j < |rows| && rows[j].similarity.Some? ==> j in idx
  }

  /** One step of `DecodedFrom`: from the positions for `rows[1..]` to those for `rows`. */
  lemma DecodedFromStep(rows: seq<SemanticRow>, rest: seq<nat>) returns (idx: seq<nat>)
    requires |rows| > 0 && DecodedAt(rows[1..], Decoded(rows[1..]), rest)
    requires AllDecodedIn(rows[1..], rest)
    ensures DecodedAt(rows, Decoded(rows), idx)
    ensures AllDecodedIn(rows, idx)
  {
    var tail := Decoded(rows[1..]);
    var s := Shift(rest);
    ShiftDecodedAt(rows, tail, rest);
    forall j | 1 <= j < |rows| && rows[j].similarity.Some?
      ensures j in s
    {
      assert rows[1..][j - 1] == rows[j];
      ShiftIn(rest, j - 1);
    }
    if rows[0].similarity.Some? {
      idx := [0] + s;
      assert Decoded(rows) == [SemanticEntry(rows[0])] + tail;
      ConsDecodedAt(rows, tail, s);
      assert idx[0] == 0;
      assert forall j :: j in s ==> j in idx;
    } else {
      idx := s;
      assert Decoded(rows) == tail;
    }
  }

  /** Rows found in `rows[1..]`, moved one place to the right, are rows of `rows` after the first. */
  lemma ShiftDecodedAt(rows: seq<SemanticRow>, es: seq<LogEntry>, rest: seq<nat>)
    requires |rows| > 0 && DecodedAt(rows[1..], es, rest)
    ensures DecodedAt(rows, es, Shift(rest))
    ensures forall i :: 0 <= i < |rest| ==> Shift(rest)[i] >= 1
  {
    var s := Shift(rest);
    forall i | 0 <= i < |s|
      ensures s[i] < |rows| && rows[s[i]].similarity.Some? && es[i] == SemanticEntry(rows[s[i]])
    {
      assert rows[s[i]] == rows[1..][rest[i]];
    }
  }

  /** A decoding first row, put in front, keeps the positions increasing. */
  lemma ConsDecodedAt(rows: seq<SemanticRow>, es: seq<LogEntry>, s: seq<nat>)
    requires |rows| > 0 && rows[0].similarity.Some? && DecodedAt(rows, es, s)
    requires forall i :: 0 <= i < |s| ==> s[i] >= 1
    ensures DecodedAt(rows, [SemanticEntry(rows[0])] + es, [0] + s)
  {
  }

  lemma SemanticFacts(rows: seq<SemanticRow>, topK: nat)
    ensures var r := TopBySimilarity(Candidates(rows), topK);
      (forall i :: 0 <= i < |r| ==> (r[i].via == "semantic" &&
        exists j :: Scored(rows, j) && r[i] == SemanticEntry(rows[j]))) &&
      (forall i, j :: 0 <= i < |r| && Scored(rows, j) && SemanticEntry(rows[j]) !in r ==>
        r[i].similarity >= rows[j].similarity.value)
  {
    var es := Candidates(rows);
    var r := TopBySimilarity(es, topK);
    var idx := CandidatesFrom(rows);
    forall i | 0 <= i < |r|
      ensures r[i].via == "semantic" && exists j :: Scored(rows, j) && r[i] == SemanticEntry(rows[j])
    {
      var m :| 0 <= m < |es| && es[m] == r[i];
      assert Scored(rows, idx[m]) && r[i] == SemanticEntry(rows[idx[m]]);
    }
    forall i, j | 0 <= i < |r| && Scored(rows, j) && SemanticEntry(rows[j]) !in r
      ensures r[i].similarity >= rows[j].similarity.value
    {
      var m :| 0 <= m < |es| && es[m] == SemanticEntry(rows[j]);
      assert es[m] !in r;
    }
  }

  // ---------------------------------------------------------------------------
  // Keyword fallback
  // ---------------------------------------------------------------------------

  /** The concatenation of a sequence of sequences, in order. */
  function Flatten<T>(xss: seq<seq<T>>): seq<T> {
    if |xss| == 0 then [] else xss[0] + Flatten(xss[1..])
  }

  /** Everything in the concatenation comes from one of the parts. */
  lemma {:induction false} FlattenMember<T>(xss: seq<seq<T>>)
    ensures forall x :: x in Flatten(xss) ==> exists k :: 0 <= k < |xss| && x in xss[k]
  {
    if |xss| > 0 {
      FlattenMember(xss[1..]);
      forall x | x in Flatten(xss)
        ensures exists k :: 0 <= k < |xss| && x in xss[k]
      {
        if x !in xss[0] {
          var k :| 0 <= k < |xss[1..]| && x in xss[1..][k];
          assert xss[1..][k] == xss[k + 1];
        }
      }
    }
  }

  /**
    `idx` lists strictly increasing positions of `b`, and `a` holds what `b`
    holds at those positions: `a` is a subsequence of `b`, in order.
  */
  ghost predicate Picks<T>(a: seq<T>, b: seq<T>, idx: seq<nat>) {
    |idx| == |a| &&
    (forall i :: 0 <= i < |idx| ==> idx[i] < |b| && a[i] == b[idx[i]]) &&
    (forall i, j :: 0 <= i < j < |idx| ==> idx[i] < idx[j])
  }

  /** The positions `idx` moved one place to the right. */
  function Shift(idx: seq<nat>): (r: seq<nat>)
    ensures |r| == |idx|
    ensures forall i :: 0 <= i < |idx| ==> r[i] == idx[i] + 1
  {
    seq(|idx|, i requires 0 <= i < |idx| => idx[i] + 1)
  }

  /** A position is in the shifted list exactly when its predecessor is in the original; 0 never is. */
  lemma ShiftIn(idx: seq<nat>, j: nat)
    ensures j + 1 in Shift(idx) <==> j in idx
    ensures 0 !in Shift(idx)
  {
    if j in idx {
      var i :| 0 <= i < |idx| && idx[i] == j;
      assert Shift(idx)[i] == j + 1;
    }
  }

  /** Picks in `b[1..]`, moved one place to the right, are picks in `b`. */
  lemma ShiftPicks<T>(a: seq<T>, b: seq<T>, idx: seq<nat>)
    requires |b| > 0 && Picks(a, b[1..], idx)
    ensures Picks(a, b, Shift(idx))
    ensures Picks([b[0]] + a, b, [0] + Shift(idx))
  {
    var s := Shift(idx);
    forall i | 0 <= i < |s|
      ensures s[i] < |b| && a[i] == b[s[i]]
    {
      assert b[1..][idx[i]] == b[idx[i] + 1];
    }
  }

  predicate NonWord(c: char) {
    !IsWordChar(c)
  }

  predicate AllLetters(w: string) {
    forall i :: 0 <= i < |w| ==> IsLetter(w[i])
  }

  /** A word the keyword pattern matches: three or more letters. */
  predicate LetterWord(w: string) {
    AllLetters(w) && |w| >= 3
  }

  /** A keyword: three or more lower-case letters. */
  predicate IsKeyword(w: string) {
    |w| >= 3 && forall i :: 0 <= i < |w| ==> IsLower(w[i])
  }

  /** The words that are all letters and at least three long, in order. */
  function LetterWords(ws: seq<string>): (r: seq<string>)
    ensures forall k :: 0 <= k < |r| ==> r[k] in ws && LetterWord(r[k])
    ensures forall k :: 0 <= k < |ws| && LetterWord(ws[k]) ==> ws[k] in r
  {
    if |ws| == 0 then []
    else (if LetterWord(ws[0]) then [ws[0]] else []) + LetterWords(ws[1..])
  }

  /**
    `LetterWords` is a filter: it keeps exactly the positions of `ws` that
    hold a letter word, in order, with repetitions.
  */
  lemma {:induction false} LetterWordsPicks(ws: seq<string>) returns (idx: seq<nat>)
    ensures Picks(LetterWords(ws), ws, idx)
    ensures forall j :: 0 <= j < |ws| ==> (j in idx <==> LetterWord(ws[j]))
  {
    if |ws| == 0 {
      idx := [];
    } else {
      var rest := LetterWordsPicks(ws[1..]);
      idx := LetterWordsPicksStep(ws, rest);
    }
  }

  /** One step of `LetterWordsPicks`: from the positions for `ws[1..]` to those for `ws`. */
  lemma LetterWordsPicksStep(ws: seq<string>, rest: seq<nat>) returns (idx: seq<nat>)
    requires |ws| > 0
    requires Picks(LetterWords(ws[1..]), ws[1..], rest)
    requires forall j :: 0 <= j < |ws| - 1 ==> (j in rest <==> LetterWord(ws[1..][j]))
    ensures Picks(LetterWords(ws), ws, idx)
    ensures forall j :: 0 <= j < |ws| ==> (j in idx <==> LetterWord(ws[j]))
  {
    var s := Shift(rest);
    if LetterWord(ws[0]) {
      idx := [0] + s;
      assert Picks(LetterWords(ws), ws, idx) by {
        ShiftPicks(LetterWords(ws[1..]), ws, rest);
        assert LetterWords(ws) == [ws[0]] + LetterWords(ws[1..]);
      }
      assert forall j :: 0 <= j < |ws| ==> (j in idx <==> LetterWord(ws[j])) by {
        ShiftedLetterWords(ws, rest);
        forall j | 1 <= j < |ws|
          ensures j in idx <==> j in s
        {
        }
      }
    } else {
      idx := s;
      assert Picks(LetterWords(ws), ws, idx) by {
        ShiftPicks(LetterWords(ws[1..]), ws, rest);
        assert LetterWords(ws) == LetterWords(ws[1..]);
      }
      assert forall j :: 0 <= j < |ws| ==> (j in idx <==> LetterWord(ws[j])) by {
        ShiftedLetterWords(ws, rest);
      }
    }
  }

  /** The letter-word positions of `ws[1..]`, shifted, are those of `ws` after position 0. */
  lemma ShiftedLetterWords(ws: seq<string>, rest: seq<nat>)
    requires |ws| > 0
    requires forall j :: 0 <= j < |ws| - 1 ==> (j in rest <==> LetterWord(ws[1..][j]))
    ensures forall j :: 1 <= j < |ws| ==> (j in Shift(rest) <==> LetterWord(ws[j]))
    ensures 0 !in Shift(rest)
  {
    forall j | 1 <= j < |ws|
      ensures j in Shift(rest) <==> LetterWord(ws[j])
    {
      ShiftIn(rest, j - 1);
      assert ws[1..][j - 1] == ws[j];
    }
    ShiftIn(rest, 0);
  }

  /** `LetterWords` distributes over concatenation. */
  lemma {:induction false} LetterWordsAppend(a: seq<string>, b: seq<string>)
    ensures LetterWords(a + b) == LetterWords(a) + LetterWords(b)
    decreases |a|
  {
    if |a| == 0 {
      assert a + b == b;
    } else {
      assert (a + b)[1..] == a[1..] + b;
      LetterWordsAppend(a[1..], b);
    }
  }

  /**
    `re.findall(r'\b[a-zA-Z]{3,}\b', query.lower())`: a match starts and ends
    at a word boundary, so it is a whole maximal run of word characters, and
    that run must consist of three or more letters.
  */
  function Keywords(query: string): (r: seq<string>)
    ensures forall k :: 0 <= k < |r| ==> IsKeyword(r[k]) && r[k] in Runs(Lower(query), NonWord)
    ensures forall w :: w in Runs(Lower(query), NonWord) && LetterWord(w) ==> w in r
  {
    var lq := Lower(query);
    RunsKeepChars(lq, NonWord, c => !IsUpper(c));
    LetterWords(Runs(lq, NonWord))
  }

  /**
    The keywords are exactly the letter-word runs of the lower-cased query,
    in the order they occur, repetitions included.
  */
  lemma KeywordsInOrder(query: string) returns (idx: seq<nat>)
    ensures Picks(Keywords(query), Runs(Lower(query), NonWord), idx)
    ensures forall j :: 0 <= j < |Runs(Lower(query), NonWord)| ==>
      (j in idx <==> LetterWord(Runs(Lower(query), NonWord)[j]))
  {
    idx := LetterWordsPicks(Runs(Lower(query), NonWord));
  }

  /** For each keyword, `keyword_results[:5]`. */
  function Firsts(ks: seq<string>, search: string -> seq<LogEntry>): (xss: seq<seq<LogEntry>>)
    ensures |xss| == |ks|
    ensures forall k :: 0 <= k < |ks| ==> xss[k] == Take(search(ks[k]), PER_KEYWORD)
  {
    seq(|ks|, k requires 0 <= k < |ks| => Take(search(ks[k]), PER_KEYWORD))
  }

  /** The first five results of `search` for each keyword, concatenated in keyword order. */
  function SearchEach(ks: seq<string>, search: string -> seq<LogEntry>): (r: seq<LogEntry>)
    ensures r == Flatten(Firsts(ks, search))
    ensures |r| <= PER_KEYWORD * |ks|
    ensures forall i :: 0 <= i < |r| ==> exists k :: 0 <= k < |ks| && r[i] in search(ks[k])
  {
    if |ks| == 0 then []
    else
      var rest := SearchEach(ks[1..], search);
      var first := Take(search(ks[0]), PER_KEYWORD);
      assert forall i :: 0 <= i < |first| ==> first[i] in search(ks[0]);
      assert Firsts(ks, search)[1..] == Firsts(ks[1..], search);
      first + rest
  }

  /**
    Step 3: only when both the template and the semantic lists are empty, the
    first five search results for each of the first three keywords, in
    keyword order.
  */
  function KeywordLogs(templateLogs: seq<LogEntry>, semanticLogs: seq<LogEntry>, query: string, search: string -> seq<LogEntry>): (r: seq<LogEntry>)
    ensures |templateLogs| > 0 || |semanticLogs| > 0 ==> r == []
    ensures |templateLogs| == 0 && |semanticLogs| == 0 ==>
      r == Flatten(Firsts(Take(Keywords(query), MAX_KEYWORDS), search))
    ensures |r| <= MAX_KEYWORDS * PER_KEYWORD
    ensures forall i :: 0 <= i < |r| ==> exists k :: 0 <= k < |Keywords(query)| && k < MAX_KEYWORDS && r[i] in search(Keywords(query)[k])
  {
    if |semanticLogs| == 0 && |templateLogs| == 0 then
      var ks := Take(Keywords(query), MAX_KEYWORDS);
      SearchEach(ks, search)
    else []
  }

  // ---------------------------------------------------------------------------
  // Merging by log id
  // ---------------------------------------------------------------------------

  /** The merge dictionary `all_logs`: log id to entry, in insertion order. */
  type Merge = Dict<Option<int>, LogEntry>

  datatype Source = FromTemplate | FromSemantic | FromKeyword

  /**
    One entry of a list merged in: a template match with a truthy id
    overwrites with score 0.9; a semantic entry goes in when its id is new
    or it scores strictly higher; a keyword match with a truthy id goes in
    only when the id is new, with score 0.5.
  */
  function Step(src: Source, d: Merge, l: LogEntry): Merge {
    match src
    case FromTemplate =>
      if Truthy(l.logId) then Put(d, l.logId, l.(similarity := TEMPLATE_SCORE, via := "template")) else d
    case FromSemantic =>
      if !Has(d, l.logId) || l.similarity > Get(d, l.logId).value.similarity then Put(d, l.logId, l) else d
    case FromKeyword =>
      if Truthy(l.logId) && !Has(d, l.logId) then Put(d, l.logId, l.(similarity := KEYWORD_SCORE, via := "keyword")) else d
  }

  /** Merging a whole list, first entry first. */
  function AddAll(src: Source, d: Merge, logs: seq<LogEntry>): Merge
    decreases |logs|
  {
    if |logs| == 0 then d else AddAll(src, Step(src, d, logs[0]), logs[1..])
  }

  /** Every entry is stored under its own id, and no id is stored twice. */
  ghost predicate MergeOK(d: Merge) {
    DistinctKeys(d) && forall i :: 0 <= i < |d| ==> d[i].value.logId == d[i].key
  }

  function Score(d: Merge, id: Option<int>): real
    requires Has(d, id)
  {
    Get(d, id).value.similarity
  }

  lemma PutKeepsMergeOK(d: Merge, l: LogEntry)
    requires MergeOK(d)
    ensures MergeOK(Put(d, l.logId, l))
    ensures forall k :: Has(d, k) ==> Has(Put(d, l.logId, l), k)
    ensures Has(Put(d, l.logId, l), l.logId)
  {
    PutKeepsDistinct(d, l.logId, l);
    FindPutSame(d, l.logId, l);
    forall k | Has(d, k) && k != l.logId
      ensures Has(Put(d, l.logId, l), k)
    {
      FindPutOther(d, l.logId, l, k);
    }
  }

  /** What one step does: ids already present stay, only `l`'s id can change. */
  lemma StepFacts(src: Source, d: Merge, l: LogEntry)
    requires MergeOK(d)
    ensures MergeOK(Step(src, d, l))
    ensures forall k :: Has(d, k) ==> Has(Step(src, d, l), k)
    ensures forall k :: k != l.logId ==> Get(Step(src, d, l), k) == Get(d, k)
  {
    var l' := match src
      case FromTemplate => l.(similarity := TEMPLATE_SCORE, via := "template")
      case FromSemantic => l
      case FromKeyword => l.(similarity := KEYWORD_SCORE, via := "keyword");
    PutKeepsMergeOK(d, l');
    forall k | k != l.logId
      ensures Get(Step(src, d, l), k) == Get(d, k)
    {
      PutGet(d, l.logId, l', k);
    }
  }

  lemma {:induction false} AddAllKeepsMergeOK(src: Source, d: Merge, logs: seq<LogEntry>)
    requires MergeOK(d)
    ensures MergeOK(AddAll(src, d, logs))
    ensures forall k :: Has(d, k) ==> Has(AddAll(src, d, logs), k)
    decreases |logs|
  {
    if |logs| > 0 {
      StepFacts(src, d, logs[0]);
      AddAllKeepsMergeOK(src, Step(src, d, logs[0]), logs[1..]);
    }
  }

  /**
    After the template list, every template log with a truthy id is present
    as a template match with score 0.9, and every id that was not there
    before came from that list.
  */
  lemma TemplateMerge(d: Merge, logs: seq<LogEntry>, k: Option<int>)
    requires MergeOK(d)
    ensures forall i :: 0 <= i < |logs| && Truthy(logs[i].logId) ==>
      Get(AddAll(FromTemplate, d, logs), logs[i].logId).Some? &&
      Get(AddAll(FromTemplate, d, logs), logs[i].logId).value.via == "template" &&
      Get(AddAll(FromTemplate, d, logs), logs[i].logId).value.similarity == TEMPLATE_SCORE
    ensures Has(AddAll(FromTemplate, d, logs), k) && !Has(d, k) ==>
      Truthy(k) && exists i :: 0 <= i < |logs| && logs[i].logId == k
  {
    TemplateMergeFinds(d, logs);
    TemplateMergeOrigin(d, logs, k);
  }

  /** Every template log with a truthy id ends up as a template match. */
  lemma {:induction false} TemplateMergeFinds(d: Merge, logs: seq<LogEntry>)
    requires MergeOK(d)
    ensures forall i :: 0 <= i < |logs| && Truthy(logs[i].logId) ==>
      Get(AddAll(FromTemplate, d, logs), logs[i].logId).Some? &&
      Get(AddAll(FromTemplate, d, logs), logs[i].logId).value.via == "template" &&
      Get(AddAll(FromTemplate, d, logs), logs[i].logId).value.similarity == TEMPLATE_SCORE
    decreases |logs|
  {
    if |logs| > 0 {
      var l, rest := logs[0], logs[1..];
      var d1 := Step(FromTemplate, d, l);
      var m := AddAll(FromTemplate, d, logs);
      assert m == AddAll(FromTemplate, d1, rest);
      StepFacts(FromTemplate, d, l);
      TemplateMergeFinds(d1, rest);
      if Truthy(l.logId) {
        PutGet(d, l.logId, l.(similarity := TEMPLATE_SCORE, via := "template"), l.logId);
        TemplateKeeps(d1, rest, l.logId);
      }
      forall i | 1 <= i < |logs| && Truthy(logs[i].logId)
        ensures Get(m, logs[i].logId).Some? && Get(m, logs[i].logId).value.via == "template" &&
          Get(m, logs[i].logId).value.similarity == TEMPLATE_SCORE
      {
        assert rest[i - 1] == logs[i];
      }
    }
  }

  /** An id the template list adds is the truthy id of one of its logs. */
  lemma {:induction false} TemplateMergeOrigin(d: Merge, logs: seq<LogEntry>, k: Option<int>)
    requires MergeOK(d)
    ensures Has(AddAll(FromTemplate, d, logs), k) && !Has(d, k) ==>
      Truthy(k) && exists i :: 0 <= i < |logs| && logs[i].logId == k
    decreases |logs|
  {
    if |logs| > 0 {
      var l, rest := logs[0], logs[1..];
      var d1 := Step(FromTemplate, d, l);
      assert AddAll(FromTemplate, d, logs) == AddAll(FromTemplate, d1, rest);
      StepFacts(FromTemplate, d, l);
      TemplateMergeOrigin(d1, rest, k);
      if Has(AddAll(FromTemplate, d, logs), k) && !Has(d, k) {
        if Has(d1, k) {
          PutHas(d, l.logId, l.(similarity := TEMPLATE_SCORE, via := "template"), k);
          assert l.logId == k && Truthy(k);
          assert logs[0].logId == k;
        } else {
          var i :| 0 <= i < |rest| && rest[i].logId == k;
          assert logs[i + 1].logId == k;
        }
      }
    }
  }

  /** A template match stays a template match through the rest of the template list. */
  lemma {:induction false} TemplateKeeps(d: Merge, logs: seq<LogEntry>, k: Option<int>)
    requires MergeOK(d)
    requires Get(d, k).Some? && Get(d, k).value.via == "template" && Get(d, k).value.similarity == TEMPLATE_SCORE
    ensures Get(AddAll(FromTemplate, d, logs), k).Some?
    ensures Get(AddAll(FromTemplate, d, logs), k).value.via == "template"
    ensures Get(AddAll(FromTemplate, d, logs), k).value.similarity == TEMPLATE_SCORE
    decreases |logs|
  {
    if |logs| > 0 {
      var l := logs[0];
      StepFacts(FromTemplate, d, l);
      if Truthy(l.logId) && l.logId == k {
        PutGet(d, l.logId, l.(similarity := TEMPLATE_SCORE, via := "template"), k);
      }
      TemplateKeeps(Step(FromTemplate, d, l), logs[1..], k);
    }
  }

  /**
    Semantic entries only ever raise a score: every id ends at least as high
    as it started and at least as high as each of its semantic entries, and
    an id whose semantic entries all score no higher than its current entry
    keeps that entry, so a tie keeps the earlier entry.
  */
  lemma {:induction false} SemanticMerge(d: Merge, logs: seq<LogEntry>, k: Option<int>)
    requires MergeOK(d)
    ensures Has(d, k) ==> (Has(AddAll(FromSemantic, d, logs), k) &&
      Score(AddAll(FromSemantic, d, logs), k) >= Score(d, k))
    ensures forall i :: 0 <= i < |logs| && logs[i].logId == k ==>
      Has(AddAll(FromSemantic, d, logs), k) && Score(AddAll(FromSemantic, d, logs), k) >= logs[i].similarity
    ensures Has(d, k) && (forall i :: 0 <= i < |logs| && logs[i].logId == k ==> logs[i].similarity <= Score(d, k)) ==>
      Get(AddAll(FromSemantic, d, logs), k) == Get(d, k)
    decreases |logs|
  {
    if |logs| > 0 {
      var l, rest := logs[0], logs[1..];
      var d1 := Step(FromSemantic, d, l);
      var m := AddAll(FromSemantic, d, logs);
      assert m == AddAll(FromSemantic, d1, rest);
      StepFacts(FromSemantic, d, l);
      assert l.logId == k ==> Has(d1, k) && Score(d1, k) >= l.similarity && (Has(d, k) ==> Score(d1, k) >= Score(d, k)) by {
        if l.logId == k {
          PutGet(d, k, l, k);
        }
      }
      SemanticMerge(d1, rest, k);
      forall i | 1 <= i < |logs| && logs[i].logId == k
        ensures Score(m, k) >= logs[i].similarity
      {
        assert rest[i - 1] == logs[i];
      }
      if Has(d, k) && (forall i :: 0 <= i < |logs| && logs[i].logId == k ==> logs[i].similarity <= Score(d, k)) {
        assert Get(d1, k) == Get(d, k);
        forall i | 0 <= i < |rest| && rest[i].logId == k
          ensures rest[i].similarity <= Score(d1, k)
        {
          assert rest[i] == logs[i + 1];
        }
      }
    }
  }

  /**
    Keyword entries never displace anything: every id already present keeps
    its entry, and every new id is a truthy keyword match with score 0.5.
  */
  lemma {:induction false} KeywordMerge(d: Merge, logs: seq<LogEntry>, k: Option<int>)
    requires MergeOK(d)
    ensures Has(d, k) ==> Get(AddAll(FromKeyword, d, logs), k) == Get(d, k)
    ensures Has(AddAll(FromKeyword, d, logs), k) && !Has(d, k) ==>
      Truthy(k) && Get(AddAll(FromKeyword, d, logs), k).value.via == "keyword" &&
      Get(AddAll(FromKeyword, d, logs), k).value.similarity == KEYWORD_SCORE
    decreases |logs|
  {
    if |logs| > 0 {
      var l := logs[0];
      var d1 := Step(FromKeyword, d, l);
      StepFacts(FromKeyword, d, l);
      KeywordMerge(d1, logs[1..], k);
      if l.logId == k && Truthy(l.logId) && !Has(d, l.logId) {
        PutGet(d, k, l.(similarity := KEYWORD_SCORE, via := "keyword"), k);
      }
    }
  }

  /** `all_logs` after the three lists: template, then semantic, then keyword entries. */
  function Merged(templateLogs: seq<LogEntry>, semanticLogs: seq<LogEntry>, keywordLogs: seq<LogEntry>): Merge {
    AddAll(FromKeyword, AddAll(FromSemantic, AddAll(FromTemplate, [], templateLogs), semanticLogs), keywordLogs)
  }

  lemma MergedOK(templateLogs: seq<LogEntry>, semanticLogs: seq<LogEntry>, keywordLogs: seq<LogEntry>)
    ensures MergeOK(Merged(templateLogs, semanticLogs, keywordLogs))
  {
    AddAllKeepsMergeOK(FromTemplate, [], templateLogs);
    AddAllKeepsMergeOK(FromSemantic, AddAll(FromTemplate, [], templateLogs), semanticLogs);
    AddAllKeepsMergeOK(FromKeyword, AddAll(FromSemantic, AddAll(FromTemplate, [], templateLogs), semanticLogs), keywordLogs);
  }

  /** The values of a well-formed merge carry pairwise distinct ids. */
  lemma ValuesDistinctIds(d: Merge)
    requires MergeOK(d)
    ensures forall i, j :: 0 <= i < j < |Values(d)| ==> Values(d)[i].logId != Values(d)[j].logId
  {
  }

  // ---------------------------------------------------------------------------
  // The whole retrieval
  // ---------------------------------------------------------------------------

  /**
    `retrieve_relevant_logs` with the queries' results given: the `top_k`
    best merged entries (all of them when fewer were merged), with pairwise
    distinct ids, best first, and no merged entry left out scoring above one
    kept; an entry left out that ties a kept one was merged after it.
  */
  function Retrieve(templateLogs: seq<LogEntry>, rows: seq<SemanticRow>, query: string, topK: nat, search: string -> seq<LogEntry>): (r: seq<LogEntry>)
    ensures var n := |Values(Merged(templateLogs, SemanticLogs(rows, topK), KeywordLogs(templateLogs, SemanticLogs(rows, topK), query, search)))|;
      |r| == if topK <= n then topK else n
    ensures Sorted(r)
    ensures forall i, j :: 0 <= i < j < |r| ==> r[i].logId != r[j].logId
    ensures forall i :: 0 <= i < |r| ==> r[i] in Values(Merged(templateLogs, SemanticLogs(rows, topK), KeywordLogs(templateLogs, SemanticLogs(rows, topK), query, search)))
    ensures forall e :: e in Values(Merged(templateLogs, SemanticLogs(rows, topK), KeywordLogs(templateLogs, SemanticLogs(rows, topK), query, search))) && e !in r ==>
      forall i :: 0 <= i < |r| ==> r[i].similarity >= e.similarity
    ensures var m := Merged(templateLogs, SemanticLogs(rows, topK), KeywordLogs(templateLogs, SemanticLogs(rows, topK), query, search));
      forall e, i :: e in Values(m) && e !in r && 0 <= i < |r| && e.similarity == r[i].similarity ==>
        Find(m, r[i].logId).Some? && Find(m, e.logId).Some? && Find(m, r[i].logId).value < Find(m, e.logId).value
  {
    var sem := SemanticLogs(rows, topK);
    var kw := KeywordLogs(templateLogs, sem, query, search);
    var m := Merged(templateLogs, sem, kw);
    MergedOK(templateLogs, sem, kw);
    var vs := Values(m);
    ValuesDistinctIds(m);
    TopDistinctIds(vs, topK);
    TopCutoffInMergeOrder(m, topK);
    TopBySimilarity(vs, topK)
  }

  /**
    At the cutoff, `sorted` is stable: a merged entry left out that ties a
    kept one entered `all_logs` after it.
  */
  lemma TopCutoffInMergeOrder(m: Merge, k: nat)
    requires MergeOK(m)
    ensures var r := TopBySimilarity(Values(m), k);
      forall e, i :: e in Values(m) && e !in r && 0 <= i < |r| && e.similarity == r[i].similarity ==>
        Find(m, r[i].logId).Some? && Find(m, e.logId).Some? && Find(m, r[i].logId).value < Find(m, e.logId).value
  {
    var vs := Values(m);
    var r := TopBySimilarity(vs, k);
    forall e, i | e in vs && e !in r && 0 <= i < |r| && e.similarity == r[i].similarity
      ensures Find(m, r[i].logId).Some? && Find(m, e.logId).Some? && Find(m, r[i].logId).value < Find(m, e.logId).value
    {
      var j :| 0 <= j < |vs| && vs[j] == e;
      TopCutoffAt(m, k, i, j);
    }
  }

  /** One pair of `TopCutoffInMergeOrder`: kept entry `i` and merged position `j`. */
  lemma TopCutoffAt(m: Merge, k: nat, i: nat, j: nat)
    requires MergeOK(m)
    ensures var r := TopBySimilarity(Values(m), k);
      i < |r| && j < |m| && m[j].value !in r && m[j].value.similarity == r[i].similarity ==>
        Find(m, r[i].logId).Some? && Find(m, m[j].key) == Some(j) && Find(m, r[i].logId).value < j
  {
    var vs := Values(m);
    var p := Order(Sims(vs));
    var r := TopBySimilarity(vs, k);
    if i < |r| && j < |m| && m[j].value !in r && m[j].value.similarity == r[i].similarity {
      assert r == TopK(vs, Sims(vs), k);
      assert r[i] == vs[p[i]] && vs[p[i]].logId == m[p[i]].key;
      assert j !in p[..|r|];
      assert Sims(vs)[p[i]] == Sims(vs)[j];
      FindUnique(m, m[p[i]].key, p[i]);
      FindUnique(m, m[j].key, j);
    }
  }

  /** Taking the best entries of a list with distinct ids keeps the ids distinct. */
  lemma TopDistinctIds(es: seq<LogEntry>, k: nat)
    requires forall i, j :: 0 <= i < j < |es| ==> es[i].logId != es[j].logId
    ensures forall i, j :: 0 <= i < j < |TopBySimilarity(es, k)| ==> TopBySimilarity(es, k)[i].logId != TopBySimilarity(es, k)[j].logId
  {
    var r := TopBySimilarity(es, k);
    var p := Order(Sims(es));
    assert r == TopK(es, Sims(es), k);
    forall i, j | 0 <= i < j < |r|
      ensures r[i].logId != r[j].logId
    {
      assert r[i] == es[p[i]] && r[j] == es[p[j]] && p[i] != p[j];
    }
  }

  /**
    Equal scores keep the merge's insertion order: of two kept entries with
    the same score, the one whose id entered `all_logs` first comes first.
  */
  lemma RetrieveTiesInMergeOrder(templateLogs: seq<LogEntry>, rows: seq<SemanticRow>, query: string, topK: nat, search: string -> seq<LogEntry>)
    ensures var sem := SemanticLogs(rows, topK);
      var m := Merged(templateLogs, sem, KeywordLogs(templateLogs, sem, query, search));
      var r := Retrieve(templateLogs, rows, query, topK, search);
      forall i, j :: 0 <= i < j < |r| && r[i].similarity == r[j].similarity ==>
        Find(m, r[i].logId).Some? && Find(m, r[j].logId).Some? && Find(m, r[i].logId).value < Find(m, r[j].logId).value
  {
    var sem := SemanticLogs(rows, topK);
    var m := Merged(templateLogs, sem, KeywordLogs(templateLogs, sem, query, search));
    MergedOK(templateLogs, sem, KeywordLogs(templateLogs, sem, query, search));
    var vs := Values(m);
    var p := Order(Sims(vs));
    var r := Retrieve(templateLogs, rows, query, topK, search);
    assert r == TopK(vs, Sims(vs), topK);
    forall i | 0 <= i < |r|
      ensures Find(m, r[i].logId) == Some(p[i])
    {
      assert r[i] == vs[p[i]] && vs[p[i]].logId == m[p[i]].key;
      FindUnique(m, m[p[i]].key, p[i]);
    }
  }

  // ---------------------------------------------------------------------------
  // Time-window summary
  // ---------------------------------------------------------------------------

  const MAX_INCIDENTS := 5
  const MAX_CONTEXT := 20

  /**
    The deduplication in `summarize_time_window`: the first entry of every
    truthy id not yet seen, in order; entries without a truthy id are dropped.
  */
  function DedupFrom(logs: seq<LogEntry>, seen: set<Option<int>>): (r: seq<LogEntry>)
    ensures forall j :: 0 <= j < |r| ==> r[j] in logs && Truthy(r[j].logId) && r[j].logId !in seen
  {
    if |logs| == 0 then []
    else
      var l := logs[0];
      if Truthy(l.logId) && l.logId !in seen then [l] + DedupFrom(logs[1..], seen + {l.logId})
      else DedupFrom(logs[1..], seen)
  }

  /** No id is kept twice. */
  lemma {:induction false} DedupDistinct(logs: seq<LogEntry>, seen: set<Option<int>>)
    ensures forall i, j :: 0 <= i < j < |DedupFrom(logs, seen)| ==> DedupFrom(logs, seen)[i].logId != DedupFrom(logs, seen)[j].logId
  {
    if |logs| > 0 {
      var l := logs[0];
      if Truthy(l.logId) && l.logId !in seen {
        var rest := DedupFrom(logs[1..], seen + {l.logId});
        DedupDistinct(logs[1..], seen + {l.logId});
        assert DedupFrom(logs, seen) == [l] + rest;
        assert forall j :: 0 <= j < |rest| ==> rest[j].logId != l.logId;
      } else {
        DedupDistinct(logs[1..], seen);
      }
    }
  }

  /** The ids of a list of entries, in order. */
  function Ids(logs: seq<LogEntry>): (r: seq<Option<int>>)
    ensures |r| == |logs|
    ensures forall i :: 0 <= i < |logs| ==> r[i] == logs[i].logId
  {
    seq(|logs|, i requires 0 <= i < |logs| => logs[i].logId)
  }

  /** Every truthy id of the input that was not seen before is kept. */
  lemma {:induction false} DedupComplete(logs: seq<LogEntry>, seen: set<Option<int>>)
    ensures forall i :: 0 <= i < |logs| && Truthy(logs[i].logId) && logs[i].logId !in seen ==>
      logs[i].logId in Ids(DedupFrom(logs, seen))
  {
    forall i | 0 <= i < |logs| && Truthy(logs[i].logId) && logs[i].logId !in seen
      ensures logs[i].logId in Ids(DedupFrom(logs, seen))
    {
      DedupKeepsId(logs, seen, i);
    }
  }

  lemma {:induction false} DedupKeepsId(logs: seq<LogEntry>, seen: set<Option<int>>, i: nat)
    requires i < |logs| && Truthy(logs[i].logId) && logs[i].logId !in seen
    ensures logs[i].logId in Ids(DedupFrom(logs, seen))
    decreases |logs|
  {
    var l := logs[0];
    var keep := Truthy(l.logId) && l.logId !in seen;
    var seen' := if keep then seen + {l.logId} else seen;
    var rest := DedupFrom(logs[1..], seen');
    assert Ids(DedupFrom(logs, seen)) == (if keep then [l.logId] else []) + Ids(rest);
    if i > 0 && logs[i].logId !in seen' {
      assert logs[i] == logs[1..][i - 1];
      DedupKeepsId(logs[1..], seen', i - 1);
    }
  }

  /** `e` is in `logs`, and no entry before it has its id. */
  predicate FirstOfItsId(logs: seq<LogEntry>, e: LogEntry) {
    exists i :: 0 <= i < |logs| && logs[i] == e && NoIdBefore(logs, i, e.logId)
  }

  predicate NoIdBefore(logs: seq<LogEntry>, i: nat, id: Option<int>)
    requires i <= |logs|
  {
    forall i' :: 0 <= i' < i ==> logs[i'].logId != id
  }

  /** Each kept entry is the first entry of the input with its id. */
  lemma {:induction false} DedupKeepsFirst(logs: seq<LogEntry>, seen: set<Option<int>>)
    ensures forall j :: 0 <= j < |DedupFrom(logs, seen)| ==> FirstOfItsId(logs, DedupFrom(logs, seen)[j])
  {
    if |logs| > 0 {
      var l := logs[0];
      var seen' := if Truthy(l.logId) && l.logId !in seen then seen + {l.logId} else seen;
      var rest := DedupFrom(logs[1..], seen');
      DedupKeepsFirst(logs[1..], seen');
      assert forall j :: 0 <= j < |rest| ==> FirstOfItsId(logs[1..], rest[j]);
      FirstOccurrenceShift(logs, rest);
      if Truthy(l.logId) && l.logId !in seen {
        assert logs[0] == l && NoIdBefore(logs, 0, l.logId);
      }
    }
  }

  /** A first occurrence in `logs[1..]` of an id other than `logs[0]`'s is a first occurrence in `logs`. */
  lemma FirstOccurrenceShift(logs: seq<LogEntry>, rest: seq<LogEntry>)
    requires |logs| > 0
    requires forall j :: 0 <= j < |rest| ==> FirstOfItsId(logs[1..], rest[j])
    ensures forall j :: 0 <= j < |rest| && rest[j].logId != logs[0].logId ==> FirstOfItsId(logs, rest[j])
  {
    forall j | 0 <= j < |rest| && rest[j].logId != logs[0].logId
      ensures FirstOfItsId(logs, rest[j])
    {
      var i :| 0 <= i < |logs[1..]| && logs[1..][i] == rest[j] && NoIdBefore(logs[1..], i, rest[j].logId);
      assert logs[i + 1] == rest[j];
      forall i' | 0 <= i' < i + 1
        ensures logs[i'].logId != rest[j].logId
      {
        if i' > 0 {
          assert logs[i'] == logs[1..][i' - 1];
        }
      }
      assert NoIdBefore(logs, i + 1, rest[j].logId);
    }
  }

  function Dedup(logs: seq<LogEntry>): seq<LogEntry> {
    DedupFrom(logs, {})
  }

  /** An incident row: its id and its log line. */
  datatype Incident = Incident(incidentId: int, line: string)

  /** The `top_k` of the per-incident retrieval in `summarize_time_window`. */
  const RELATED_TOP_K := 5

  /**
    Where an incident's retrieval gets its inputs: the logs sharing its
    template (empty when its id is 0 or its line has no parsed log) and the
    window's embedding rows scored against its line.
  */
  datatype Sources = Sources(templateLogsOf: Incident -> seq<LogEntry>, rowsOf: Incident -> seq<SemanticRow>, search: string -> seq<LogEntry>)

  /** `retrieve_relevant_logs(incident_log, incident_id=…, hours=hours, top_k=5)`. */
  function RetrieveFor(src: Sources, inc: Incident): seq<LogEntry> {
    Retrieve(src.templateLogsOf(inc), src.rowsOf(inc), inc.line, RELATED_TOP_K, src.search)
  }

  /**
    The retrieved logs of the first five incidents, concatenated in incident
    order: `all_relevant_logs` in `summarize_time_window`.
  */
  function RelatedLogs(incidents: seq<Incident>, src: Sources): (r: seq<LogEntry>)
    ensures r == Flatten(PerIncident(Take(incidents, MAX_INCIDENTS), src))
  {
    Gather(Take(incidents, MAX_INCIDENTS), src)
  }

  /** Every related log was retrieved for one of the first five incidents. */
  lemma RelatedLogsFrom(incidents: seq<Incident>, src: Sources)
    ensures forall e :: e in RelatedLogs(incidents, src) ==>
      exists k :: 0 <= k < |incidents| && k < MAX_INCIDENTS && e in RetrieveFor(src, incidents[k])
  {
    var ts := Take(incidents, MAX_INCIDENTS);
    var xss := PerIncident(ts, src);
    FlattenMember(xss);
    forall e | e in RelatedLogs(incidents, src)
      ensures exists k :: 0 <= k < |incidents| && k < MAX_INCIDENTS && e in RetrieveFor(src, incidents[k])
    {
      var k :| 0 <= k < |xss| && e in xss[k];
      assert ts[k] == incidents[k];
    }
  }

  /** Each incident's retrieval, in incident order. */
  function PerIncident(incidents: seq<Incident>, src: Sources): (xss: seq<seq<LogEntry>>)
    ensures |xss| == |incidents|
    ensures forall k :: 0 <= k < |incidents| ==> xss[k] == RetrieveFor(src, incidents[k])
  {
    seq(|incidents|, k requires 0 <= k < |incidents| => RetrieveFor(src, incidents[k]))
  }

  function Gather(incidents: seq<Incident>, src: Sources): (r: seq<LogEntry>)
    ensures r == Flatten(PerIncident(incidents, src))
  {
    if |incidents| == 0 then []
    else
      var first := RetrieveFor(src, incidents[0]);
      var rest := Gather(incidents[1..], src);
      assert PerIncident(incidents, src)[1..] == PerIncident(incidents[1..], src);
      first + rest
  }

  /** The truthy ids among `logs`. */
  function TruthyIds(logs: seq<LogEntry>): set<Option<int>> {
    set i | 0 <= i < |logs| && Truthy(logs[i].logId) :: logs[i].logId
  }

  /** A sequence without repetitions has as many distinct elements as positions. */
  lemma {:induction false} DistinctCard(s: seq<Option<int>>)
    requires forall i, j :: 0 <= i < j < |s| ==> s[i] != s[j]
    ensures |set i | 0 <= i < |s| :: s[i]| == |s|
  {
    if |s| > 0 {
      var a := set i | 0 <= i < |s| :: s[i];
      var b := set i | 0 <= i < |s| - 1 :: s[1..][i];
      DistinctCard(s[1..]);
      forall x | x in a
        ensures x in {s[0]} + b
      {
        var i :| 0 <= i < |s| && s[i] == x;
        if i > 0 {
          assert s[1..][i - 1] == x;
        }
      }
      forall x | x in b
        ensures x in a
      {
        var i :| 0 <= i < |s| - 1 && s[1..][i] == x;
        assert s[i + 1] == x;
      }
      assert a == {s[0]} + b;
      assert s[0] !in b;
    }
  }

  /** De-duplication keeps exactly one entry per distinct truthy id. */
  lemma DedupCount(logs: seq<LogEntry>)
    ensures |Dedup(logs)| == |TruthyIds(logs)|
  {
    var r := Dedup(logs);
    var ids := Ids(r);
    DedupDistinct(logs, {});
    DedupComplete(logs, {});
    DistinctCard(ids);
    var kept := set i | 0 <= i < |ids| :: ids[i];
    forall x | x in kept
      ensures x in TruthyIds(logs)
    {
      var j :| 0 <= j < |ids| && ids[j] == x;
      var i :| 0 <= i < |logs| && logs[i] == r[j];
    }
    forall x | x in TruthyIds(logs)
      ensures x in kept
    {
      var i :| 0 <= i < |logs| && Truthy(logs[i].logId) && logs[i].logId == x;
      assert x in ids;
    }
    assert kept == TruthyIds(logs);
  }

  /** The de-duplicated list is a subsequence of its input: it keeps the input's order. */
  lemma {:induction false} DedupInOrder(logs: seq<LogEntry>, seen: set<Option<int>>) returns (idx: seq<nat>)
    ensures Picks(DedupFrom(logs, seen), logs, idx)
  {
    if |logs| == 0 {
      idx := [];
    } else {
      var l := logs[0];
      if Truthy(l.logId) && l.logId !in seen {
        var rest := DedupInOrder(logs[1..], seen + {l.logId});
        ShiftPicks(DedupFrom(logs[1..], seen + {l.logId}), logs, rest);
        idx := [0] + Shift(rest);
      } else {
        var rest := DedupInOrder(logs[1..], seen);
        ShiftPicks(DedupFrom(logs[1..], seen), logs, rest);
        idx := Shift(rest);
      }
    }
  }

  /** `f"[{timestamp}] {log_line}"`. */
  function ContextLine(l: LogEntry): string {
    "[" + l.timestamp + "] " + l.line
  }

  /** The context lines: one per deduplicated entry, for the first twenty of them. */
  function ContextLines(unique: seq<LogEntry>): (r: seq<string>)
    ensures |r| <= MAX_CONTEXT && |r| <= |unique|
    ensures |unique| >= MAX_CONTEXT ==> |r| == MAX_CONTEXT
    ensures forall i :: 0 <= i < |r| ==> r[i] == ContextLine(unique[i])
  {
    var u := Take(unique, MAX_CONTEXT);
    seq(|u|, i requires 0 <= i < |u| => ContextLine(u[i]))
  }

  /**
    `summarize_time_window`, with the language model's answer given (`None`
    when it returned nothing usable): without incidents a fixed message;
    otherwise the model's summary, or a fallback that counts the incidents
    and the distinct truthy ids among the related logs.
  */
  function SummarizeTimeWindow(incidents: seq<Incident>, hours: int, src: Sources, llm: Option<string>): (r: string)
    ensures |incidents| == 0 ==> r == "No incidents found in the last " + IntToString(hours) + " hour(s)"
    ensures |incidents| > 0 && llm.Some? ==> r == llm.value
    ensures |incidents| > 0 && llm.None? ==>
      r == "Found " + IntToString(|incidents|) + " incidents in the last " + IntToString(hours) + " hour(s). " +
        "Related context: " + IntToString(|TruthyIds(RelatedLogs(incidents, src))|) + " log entries."
  {
    if |incidents| == 0 then "No incidents found in the last " + IntToString(hours) + " hour(s)"
    else match llm
      case Some(summary) => summary
      case None =>
        var unique := Dedup(RelatedLogs(incidents, src));
        DedupCount(RelatedLogs(incidents, src));
        "Found " + IntToString(|incidents|) + " incidents in the last " + IntToString(hours) + " hour(s). " +
          "Related context: " + IntToString(|unique|) + " log entries."
  }
}
