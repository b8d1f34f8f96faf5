/**
  ASCII approximations of the Python string operations the system relies on:
  `in` on strings, `lower()`/`upper()`, `split()` on whitespace, `split('.')`,
  `join`, `str(int)` and `int(str)`.
*/
module Text {
  import opened Wrappers

  // ---------------------------------------------------------------------------
  // Characters
  // ---------------------------------------------------------------------------

  /** Python's `str.isspace` restricted to ASCII: space, \t \n \v \f \r and \x1c-\x1f. */
  predicate IsSpace(c: char) {
    c == ' ' || ('\t' <= c <= '\r') || ('\U{1C}' <= c <= '\U{1F}')
  }

  predicate IsDigit(c: char) { '0' <= c <= '9' }

  predicate IsUpper(c: char) { 'A' <= c <= 'Z' }

  predicate IsLower(c: char) { 'a' <= c <= 'z' }

  predicate IsLetter(c: char) { IsUpper(c) || IsLower(c) }

  /** A regular-expression word character (`\w`): letter, digit or underscore. */
  predicate IsWordChar(c: char) { IsLetter(c) || IsDigit(c) || c == '_' }

  function LowerChar(c: char): (r: char)
    ensures !IsUpper(r)
    ensures IsUpper(c) ==> IsLower(r)
    ensures !IsUpper(c) ==> r == c
  {
    if IsUpper(c) then (c as int + 32) as char else c
  }

  function UpperChar(c: char): (r: char)
    ensures !IsLower(r)
    ensures IsLower(c) ==> IsUpper(r)
    ensures !IsLower(c) ==> r == c
  {
    if IsLower(c) then (c as int - 32) as char else c
  }

  function Lower(s: string): (r: string)
    ensures |r| == |s|
    ensures forall i :: 0 <= i < |s| ==> r[i] == LowerChar(s[i])
  {
    seq(|s|, i requires 0 <= i < |s| => LowerChar(s[i]))
  }

  function Upper(s: string): (r: string)
    ensures |r| == |s|
    ensures forall i :: 0 <= i < |s| ==> r[i] == UpperChar(s[i])
  {
    seq(|s|, i requires 0 <= i < |s| => UpperChar(s[i]))
  }

  /** Python's slice `xs[:n]`. */
  function Take<T>(xs: seq<T>, n: nat): (r: seq<T>)
    ensures |r| == if |xs| <= n then |xs| else n
    ensures r == xs[..|r|]
  {
    if |xs| <= n then xs else xs[..n]
  }

  /** How many whitespace characters `s` starts with. */
  function LeadingSpace(s: string): (n: nat)
    ensures n <= |s|
    ensures forall i :: 0 <= i < n ==> IsSpace(s[i])
    ensures n < |s| ==> !IsSpace(s[n])
  {
    if |s| == 0 || !IsSpace(s[0]) then 0 else 1 + LeadingSpace(s[1..])
  }

  /** How many whitespace characters `s` ends with. */
  function TrailingSpace(s: string): (n: nat)
    ensures n <= |s|
    ensures forall i :: |s| - n <= i < |s| ==> IsSpace(s[i])
    ensures n < |s| ==> !IsSpace(s[|s| - n - 1])
  {
    if |s| == 0 || !IsSpace(s[|s| - 1]) then 0 else 1 + TrailingSpace(s[..|s| - 1])
  }

  /** `str.strip()`: `s` without its leading and trailing whitespace. */
  function Strip(s: string): (r: string)
    ensures |r| > 0 ==> !IsSpace(r[0]) && !IsSpace(r[|r| - 1])
    ensures |r| <= |s|
  {
    var t := s[LeadingSpace(s)..];
    t[..|t| - TrailingSpace(t)]
  }

  predicate AllSpace(s: string) {
    forall i :: 0 <= i < |s| ==> IsSpace(s[i])
  }

  /** Stripping removes exactly the whitespace padding around a word that neither starts nor ends with whitespace. */
  lemma StripPadded(pre: string, w: string, post: string)
    requires AllSpace(pre) && AllSpace(post)
    requires |w| > 0 ==> !IsSpace(w[0]) && !IsSpace(w[|w| - 1])
    ensures Strip(pre + w + post) == w
  {
    var s := pre + w + post;
    if |w| > 0 {
      assert s[|pre|] == w[0];
      assert LeadingSpace(s) == |pre|;
      var t := s[|pre|..];
      assert t == w + post;
      assert t[|w| - 1] == w[|w| - 1];
      assert TrailingSpace(t) == |post|;
    } else {
      assert AllSpace(s);
      assert LeadingSpace(s) == |s|;
    }
  }

  // ---------------------------------------------------------------------------
  // Substrings
  // ---------------------------------------------------------------------------

  /** Python's `sub in s`. */
  predicate Contains(s: string, sub: string) {
    exists i | 0 <= i <= |s| - |sub| :: OccursAt(s, sub, i)
  }

  /** `sub` occurs in `s` starting at position `i`. */
  predicate OccursAt(s: string, sub: string, i: int) {
    0 <= i <= |s| - |sub| && s[i..i + |sub|] == sub
  }

  lemma ContainsMiddle(a: string, b: string, c: string)
    ensures Contains(a + b + c, b)
  {
    var s := a + b + c;
    assert s[|a|..|a| + |b|] == b;
    assert OccursAt(s, b, |a|);
  }

  /** Appending text keeps every occurrence. */
  lemma ContainsExtend(s: string, more: string, sub: string)
    requires Contains(s, sub)
    ensures Contains(s + more, sub)
  {
    var i :| 0 <= i <= |s| - |sub| && OccursAt(s, sub, i);
    assert (s + more)[i..i + |sub|] == s[i..i + |sub|];
    assert OccursAt(s + more, sub, i);
  }

  /** A string ends with what was appended last. */
  lemma ContainsLast(s: string, sub: string)
    ensures Contains(s + sub, sub)
  {
    assert (s + sub)[|s|..|s| + |sub|] == sub;
    assert OccursAt(s + sub, sub, |s|);
  }

  /** Whoever contains `x + y` contains `x`: a longer needle implies a shorter one. */
  lemma ContainsPrefixOfNeedle(s: string, x: string, y: string)
    requires Contains(s, x + y)
    ensures Contains(s, x)
  {
    var i :| 0 <= i <= |s| - |x + y| && OccursAt(s, x + y, i);
    assert s[i..i + |x|] == (x + y)[..|x|];
    assert OccursAt(s, x, i);
  }

  /** A needle holding a lower-case letter never occurs in an upper-cased string. */
  lemma UpperLacksLowerNeedle(s: string, needle: string, k: nat)
    requires k < |needle| && IsLower(needle[k])
    ensures !Contains(Upper(s), needle)
  {
    var u := Upper(s);
    forall i | 0 <= i <= |u| - |needle|
      ensures !OccursAt(u, needle, i)
    {
      assert u[i..i + |needle|][k] == u[i + k];
    }
  }

  // ---------------------------------------------------------------------------
  // Splitting and joining
  // ---------------------------------------------------------------------------

  /** Length of the longest prefix of `s` free of separator characters. */
  function RunLen(s: string, isSep: char -> bool): (n: nat)
    ensures n <= |s|
    ensures forall i :: 0 <= i < n ==> !isSep(s[i])
    ensures n < |s| ==> isSep(s[n])
  {
    if |s| == 0 || isSep(s[0]) then 0 else 1 + RunLen(s[1..], isSep)
  }

  /** A non-empty string with no separator character in it. */
  predicate IsRun(w: string, isSep: char -> bool) {
    |w| > 0 && forall i :: 0 <= i < |w| ==> !isSep(w[i])
  }

  /**
    The maximal non-empty separator-free runs of `s`, in order: with `IsSpace`
    this is Python's `s.split()`, which also discards leading and trailing blanks.
  */
  function Runs(s: string, isSep: char -> bool): (r: seq<string>)
    ensures forall k :: 0 <= k < |r| ==> IsRun(r[k], isSep)
    decreases |s|
  {
    if |s| == 0 then []
    else if isSep(s[0]) then Runs(s[1..], isSep)
    else
      var n := RunLen(s, isSep);
      [s[..n]] + Runs(s[n..], isSep)
  }

  /** A property every character of `s` has is shared by every character of every run. */
  lemma {:induction false} RunsKeepChars(s: string, isSep: char -> bool, p: char -> bool)
    requires forall i :: 0 <= i < |s| ==> p(s[i])
    ensures forall k :: 0 <= k < |Runs(s, isSep)| ==> forall i :: 0 <= i < |Runs(s, isSep)[k]| ==> p(Runs(s, isSep)[k][i])
    decreases |s|
  {
    if |s| > 0 {
      if isSep(s[0]) {
        RunsKeepChars(s[1..], isSep, p);
      } else {
        var n := RunLen(s, isSep);
        RunsKeepChars(s[n..], isSep, p);
        var r := Runs(s, isSep);
        assert r == [s[..n]] + Runs(s[n..], isSep);
        forall k | 0 <= k < |r|
          ensures forall i :: 0 <= i < |r[k]| ==> p(r[k][i])
        {
          if k > 0 {
            assert r[k] == Runs(s[n..], isSep)[k - 1];
          }
        }
      }
    }
  }

  /** Python's `s.split()`. */
  function Words(s: string): (r: seq<string>)
    ensures forall k :: 0 <= k < |r| ==> IsRun(r[k], IsSpace)
  {
    Runs(s, IsSpace)
  }

  /** What occurs in a suffix of `s` occurs in `s`. */
  lemma ContainsFromSuffix(s: string, n: nat, w: string)
    requires n <= |s| && Contains(s[n..], w)
    ensures Contains(s, w)
  {
    var k :| 0 <= k <= |s[n..]| - |w| && OccursAt(s[n..], w, k);
    assert s[k + n..k + n + |w|] == s[n..][k..k + |w|];
    assert OccursAt(s, w, k + n);
  }

  /** Every run of `s` occurs in `s`. */
  lemma {:induction false} RunsOccur(s: string, isSep: char -> bool, j: nat)
    requires j < |Runs(s, isSep)|
    ensures Contains(s, Runs(s, isSep)[j])
    decreases |s|
  {
    if isSep(s[0]) {
      RunsOccur(s[1..], isSep, j);
      ContainsFromSuffix(s, 1, Runs(s, isSep)[j]);
    } else {
      var n := RunLen(s, isSep);
      if j == 0 {
        assert OccursAt(s, s[..n], 0);
      } else {
        assert Runs(s, isSep)[j] == Runs(s[n..], isSep)[j - 1];
        RunsOccur(s[n..], isSep, j - 1);
        ContainsFromSuffix(s, n, Runs(s, isSep)[j]);
      }
    }
  }

  /** Python's `sep.join(ts)`. */
  function Join(ts: seq<string>, sep: string): string
  {
    if |ts| == 0 then ""
    else if |ts| == 1 then ts[0]
    else ts[0] + sep + Join(ts[1..], sep)
  }

  /** Prepending text keeps every occurrence. */
  lemma ContainsPrepend(p: string, s: string, sub: string)
    requires Contains(s, sub)
    ensures Contains(p + s, sub)
  {
    var i :| 0 <= i <= |s| - |sub| && OccursAt(s, sub, i);
    assert (p + s)[|p| + i..|p| + i + |sub|] == s[i..i + |sub|];
    assert OccursAt(p + s, sub, |p| + i);
  }

  /** Each piece occurs in the joined text. */
  lemma {:induction false} JoinContains(ts: seq<string>, sep: string, i: nat)
    requires i < |ts|
    ensures Contains(Join(ts, sep), ts[i])
    decreases |ts|
  {
    if |ts| == 1 {
      ContainsMiddle("", ts[0], "");
      assert "" + ts[0] + "" == Join(ts, sep);
    } else if i == 0 {
      ContainsMiddle("", ts[0], sep + Join(ts[1..], sep));
      assert "" + ts[0] + (sep + Join(ts[1..], sep)) == Join(ts, sep);
    } else {
      JoinContains(ts[1..], sep, i - 1);
      ContainsPrepend(ts[0] + sep, Join(ts[1..], sep), ts[i]);
    }
  }

  function Concat(ts: seq<string>): string
  {
    if |ts| == 0 then "" else ts[0] + Concat(ts[1..])
  }

  /** Each piece occurs in the concatenation of the pieces. */
  lemma {:induction false} ConcatContains(ts: seq<string>, i: nat)
    requires i < |ts|
    ensures Contains(Concat(ts), ts[i])
    decreases |ts|
  {
    if i == 0 {
      ContainsMiddle("", ts[0], Concat(ts[1..]));
      assert "" + ts[0] + Concat(ts[1..]) == Concat(ts);
    } else {
      ConcatContains(ts[1..], i - 1);
      var k :| 0 <= k <= |Concat(ts[1..])| - |ts[i]| && OccursAt(Concat(ts[1..]), ts[i], k);
      assert Concat(ts)[|ts[0]| + k..|ts[0]| + k + |ts[i]|] == Concat(ts[1..])[k..k + |ts[i]|];
      assert OccursAt(Concat(ts), ts[i], |ts[0]| + k);
    }
  }

  /** The characters of `s` that are not separators, in order. */
  function Keep(s: string, isSep: char -> bool): (r: string)
    ensures |r| <= |s|
  {
    if |s| == 0 then "" else (if isSep(s[0]) then "" else [s[0]]) + Keep(s[1..], isSep)
  }

  lemma {:induction false} KeepAppend(a: string, b: string, isSep: char -> bool)
    ensures Keep(a + b, isSep) == Keep(a, isSep) + Keep(b, isSep)
  {
    if |a| > 0 {
      assert (a + b)[0] == a[0];
      assert (a + b)[1..] == a[1..] + b;
      KeepAppend(a[1..], b, isSep);
    } else {
      assert a + b == b;
    }
  }

  lemma {:induction false} KeepRun(w: string, isSep: char -> bool)
    requires forall i :: 0 <= i < |w| ==> !isSep(w[i])
    ensures Keep(w, isSep) == w
  {
    if |w| > 0 {
      KeepRun(w[1..], isSep);
    }
  }

  /** Splitting loses exactly the separators: the runs put together are the kept characters. */
  lemma {:induction false} RunsCoverText(s: string, isSep: char -> bool)
    ensures Concat(Runs(s, isSep)) == Keep(s, isSep)
    decreases |s|
  {
    if |s| == 0 {
    } else if isSep(s[0]) {
      RunsCoverText(s[1..], isSep);
    } else {
      var n := RunLen(s, isSep);
      RunsCoverText(s[n..], isSep);
      assert s == s[..n] + s[n..];
      KeepAppend(s[..n], s[n..], isSep);
      KeepRun(s[..n], isSep);
    }
  }

  lemma {:induction false} RunLenOfJoin(w: string, rest: string, isSep: char -> bool)
    requires forall i :: 0 <= i < |w| ==> !isSep(w[i])
    requires |rest| > 0 ==> isSep(rest[0])
    ensures RunLen(w + rest, isSep) == |w|
    decreases |w|
  {
    if |w| > 0 {
      assert (w + rest)[1..] == w[1..] + rest;
      RunLenOfJoin(w[1..], rest, isSep);
    }
  }

  /** Splitting a joined sequence of runs gives the runs back: `" ".join(ts).split() == ts`. */
  lemma {:induction false} RunsOfJoin(ts: seq<string>, sep: char, isSep: char -> bool)
    requires isSep(sep)
    requires forall k :: 0 <= k < |ts| ==> IsRun(ts[k], isSep)
    ensures Runs(Join(ts, [sep]), isSep) == ts
  {
    if |ts| == 0 {
    } else if |ts| == 1 {
      RunLenOfJoin(ts[0], "", isSep);
      assert ts[0] + "" == ts[0];
      assert ts[0][|ts[0]|..] == "";
    } else {
      var w, rest := ts[0], Join(ts[1..], [sep]);
      var s := w + [sep] + rest;
      RunLenOfJoin(w, [sep] + rest, isSep);
      assert s == w + ([sep] + rest);
      assert s[..|w|] == w;
      assert s[|w|..] == [sep] + rest;
      assert ([sep] + rest)[1..] == rest;
      RunsOfJoin(ts[1..], sep, isSep);
    }
  }

  /** Every character of `s` satisfies `p`. */
  predicate AllChars(s: string, p: char -> bool) {
    forall i :: 0 <= i < |s| ==> p(s[i])
  }

  lemma {:induction false} JoinAllChars(ts: seq<string>, sep: string, p: char -> bool)
    requires AllChars(sep, p)
    requires forall k :: 0 <= k < |ts| ==> AllChars(ts[k], p)
    ensures AllChars(Join(ts, sep), p)
  {
    if |ts| > 1 {
      JoinAllChars(ts[1..], sep, p);
    }
  }

  /** The test for one separator character. */
  function Is(c: char): char -> bool {
    x => x == c
  }

  /** Python's `s.split(c)`: the pieces between occurrences of `c`, empty ones included. */
  function Fields(s: string, c: char): (r: seq<string>)
    ensures |r| >= 1
    ensures forall k :: 0 <= k < |r| ==> forall i :: 0 <= i < |r[k]| ==> r[k][i] != c
    decreases |s|
  {
    var n := RunLen(s, Is(c));
    if n == |s| then [s] else [s[..n]] + Fields(s[n + 1..], c)
  }

  /** A string without the separator is a single field. */
  lemma FieldsWithoutSeparator(s: string, c: char)
    requires forall i :: 0 <= i < |s| ==> s[i] != c
    ensures Fields(s, c) == [s]
  {
    RunLenOfJoin(s, "", Is(c));
    assert s + "" == s;
  }

  /** Joining the fields with their separator restores the string. */
  lemma {:induction false} JoinFields(s: string, c: char)
    ensures Join(Fields(s, c), [c]) == s
    decreases |s|
  {
    var n := RunLen(s, Is(c));
    if n < |s| {
      var head, tail := s[..n], s[n + 1..];
      JoinFields(tail, c);
      JoinCons(head, Fields(tail, c), [c]);
      SplitAt(s, n, c);
    }
  }

  /** Joining a piece in front of at least one more. */
  lemma JoinCons(head: string, f: seq<string>, sep: string)
    requires |f| >= 1
    ensures Join([head] + f, sep) == head + sep + Join(f, sep)
  {
    assert ([head] + f)[1..] == f;
  }

  /** A string is its part before position `n`, the separator at `n`, and the rest. */
  lemma SplitAt(s: string, n: nat, c: char)
    requires n < |s| && Is(c)(s[n])
    ensures s[..n] + [c] + s[n + 1..] == s
  {
  }

  /** Splitting on `c` undoes joining `c`-free pieces with `c`. */
  lemma {:induction false} FieldsOfJoin(ts: seq<string>, c: char)
    requires |ts| >= 1
    requires forall k :: 0 <= k < |ts| ==> forall i :: 0 <= i < |ts[k]| ==> ts[k][i] != c
    ensures Fields(Join(ts, [c]), c) == ts
  {
    if |ts| == 1 {
      RunLenOfJoin(ts[0], "", Is(c));
      assert ts[0] + "" == ts[0];
    } else {
      var w, rest := ts[0], Join(ts[1..], [c]);
      var s := w + [c] + rest;
      RunLenOfJoin(w, [c] + rest, Is(c));
      assert s == w + ([c] + rest);
      assert s[..|w|] == w;
      assert s[|w| + 1..] == rest;
      FieldsOfJoin(ts[1..], c);
    }
  }

  // ---------------------------------------------------------------------------
  // Integers
  // ---------------------------------------------------------------------------

  predicate IsDigits(s: string) {
    |s| > 0 && forall i :: 0 <= i < |s| ==> IsDigit(s[i])
  }

  function DigitValue(c: char): nat
    requires IsDigit(c)
  {
    c as int - '0' as int
  }

  function DigitChar(d: nat): (c: char)
    requires d < 10
    ensures IsDigit(c) && DigitValue(c) == d
  {
    ('0' as int + d) as char
  }

  /** The value of a decimal digit string, most significant digit first. */
  function DigitsValue(s: string): nat
    requires forall i :: 0 <= i < |s| ==> IsDigit(s[i])
  {
    if |s| == 0 then 0 else 10 * DigitsValue(s[..|s| - 1]) + DigitValue(s[|s| - 1])
  }

  /** Python's `str(n)` for a natural number. */
  function NatToString(n: nat): (s: string)
    ensures IsDigits(s)
  {
    if n < 10 then [DigitChar(n)] else NatToString(n / 10) + [DigitChar(n % 10)]
  }

  /** Python's `str(i)`. */
  function IntToString(i: int): string
  {
    if i < 0 then "-" + NatToString(-i) else NatToString(i)
  }

  /**
    Python's `int(s)` restricted to an optional sign followed by decimal digits;
    `None` stands for the `ValueError` it raises otherwise.
  */
  function ParseInt(s: string): (r: Option<int>)
    ensures r.Some? <==> IsDigits(s) || (|s| > 0 && (s[0] == '-' || s[0] == '+') && IsDigits(s[1..]))
  {
    if IsDigits(s) then Some(DigitsValue(s))
    else if |s| > 0 && s[0] == '-' && IsDigits(s[1..]) then var v: int := DigitsValue(s[1..]); Some(-v)
    else if |s| > 0 && s[0] == '+' && IsDigits(s[1..]) then Some(DigitsValue(s[1..]))
    else None
  }

  lemma {:induction false} NatToStringValue(n: nat)
    ensures DigitsValue(NatToString(n)) == n
  {
    if n >= 10 {
      NatToStringValue(n / 10);
      var s := NatToString(n / 10) + [DigitChar(n % 10)];
      assert s[..|s| - 1] == NatToString(n / 10);
    }
  }

  /** `int(str(i)) == i`. */
  lemma ParseIntToString(i: int)
    ensures ParseInt(IntToString(i)) == Some(i)
  {
    if i < 0 {
      NatToStringValue(-i);
      assert ("-" + NatToString(-i))[1..] == NatToString(-i);
    } else {
      NatToStringValue(i);
    }
  }
}
