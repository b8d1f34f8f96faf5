/**
  The Drain tokenizer (`DrainParser._tokenize`): a log line is split on
  whitespace and every word that looks like a number, an IPv4-style dotted
  quad, a `0x` hex literal or a path is replaced by a placeholder.
*/
module DrainTokenizer {
  import opened Text

  const NUM := "<NUM>"
  const IP := "<IP>"
  const HEX := "<HEX>"
  const PATH := "<PATH>"

  predicate IsPlaceholder(t: string) {
    t == NUM || t == IP || t == HEX || t == PATH
  }

  /** `^\d+$`. */
  predicate IsNumber(t: string) {
    IsDigits(t)
  }

  /** `^\d+\.\d+\.\d+\.\d+$`: four non-empty digit groups separated by dots (no range check). */
  predicate IsDottedQuad(t: string) {
    var f := Fields(t, '.');
    |f| == 4 && IsDigits(f[0]) && IsDigits(f[1]) && IsDigits(f[2]) && IsDigits(f[3])
  }

  predicate IsHexDigit(c: char) {
    IsDigit(c) || ('a' <= c <= 'f') || ('A' <= c <= 'F')
  }

  /** `^0x[0-9a-fA-F]+$`. */
  predicate IsHexLiteral(t: string) {
    |t| > 2 && t[0] == '0' && t[1] == 'x' && forall i :: 2 <= i < |t| ==> IsHexDigit(t[i])
  }

  /** The word holds a forward or a backward slash. */
  predicate IsPathLike(t: string) {
    '/' in t || '\\' in t
  }

  predicate IsMaskable(t: string) {
    IsNumber(t) || IsDottedQuad(t) || IsHexLiteral(t) || IsPathLike(t)
  }

  /** A word that starts with `<` and holds no dot or slash is never masked. */
  lemma AngleWordNotMaskable(t: string)
    requires |t| > 2 && t[0] == '<'
    requires forall i :: 0 <= i < |t| ==> t[i] != '.' && t[i] != '/' && t[i] != '\\'
    ensures !IsMaskable(t)
  {
    assert !IsDigit(t[0]);
    FieldsWithoutSeparator(t, '.');
  }

  /** No placeholder looks like a number, an IP, a hex literal or a path. */
  lemma PlaceholderNotMaskable(t: string)
    ensures IsPlaceholder(t) ==> !IsMaskable(t)
  {
    if t == NUM {
      AngleWordNotMaskable(NUM);
    } else if t == IP {
      AngleWordNotMaskable(IP);
    } else if t == HEX {
      AngleWordNotMaskable(HEX);
    } else if t == PATH {
      AngleWordNotMaskable(PATH);
    }
  }

  /** The placeholder for one word, checked in the order number, IP, hex, path. */
  function Mask(t: string): (r: string)
    ensures r == NUM <==> IsNumber(t) || t == NUM
    ensures r == IP <==> (!IsNumber(t) && IsDottedQuad(t)) || t == IP
    ensures r == HEX <==> (!IsNumber(t) && !IsDottedQuad(t) && IsHexLiteral(t)) || t == HEX
    ensures r == PATH <==> (!IsNumber(t) && !IsDottedQuad(t) && !IsHexLiteral(t) && IsPathLike(t)) || t == PATH
    ensures r == t <==> !IsMaskable(t)
    ensures IsPlaceholder(r) || r == t
  {
    PlaceholderNotMaskable(t);
    if IsNumber(t) then NUM
    else if IsDottedQuad(t) then IP
    else if IsHexLiteral(t) then HEX
    else if IsPathLike(t) then PATH
    else t
  }

  /** A dotted quad holds a dot, and nothing but digits and dots. */
  lemma DottedQuadChars(t: string)
    requires IsDottedQuad(t)
    ensures '.' in t
    ensures forall i :: 0 <= i < |t| ==> IsDigit(t[i]) || t[i] == '.'
  {
    var f := Fields(t, '.');
    JoinFields(t, '.');
    var p := (c: char) => IsDigit(c) || c == '.';
    JoinAllChars(f, ".", p);
    assert AllChars(t, p);
    assert t == f[0] + "." + Join(f[1..], ".");
    assert t[|f[0]|] == '.';
  }

  /** The four word classes never overlap, so the order in which they are checked does not matter. */
  lemma ClassesDisjoint(t: string)
    ensures IsNumber(t) ==> !IsDottedQuad(t) && !IsHexLiteral(t) && !IsPathLike(t)
    ensures IsDottedQuad(t) ==> !IsHexLiteral(t) && !IsPathLike(t)
    ensures IsHexLiteral(t) ==> !IsPathLike(t)
  {
    if IsDottedQuad(t) {
      DottedQuadChars(t);
      assert !IsHexLiteral(t) by {
        assert !IsDigit('x');
      }
    }
  }

  /** Masking a placeholder or an ordinary word leaves it alone, so masking twice is masking once. */
  lemma MaskIdempotent(t: string)
    ensures Mask(Mask(t)) == Mask(t)
  {
    PlaceholderNotMaskable(Mask(t));
  }

  /** `_tokenize(line)`: one token per whitespace-separated word, each masked. */
  function Tokenize(line: string): (r: seq<string>)
    ensures |r| == |Words(line)|
    ensures forall i :: 0 <= i < |r| ==> r[i] == Mask(Words(line)[i])
    ensures forall i :: 0 <= i < |r| ==> IsRun(r[i], IsSpace)
  {
    var ws := Words(line);
    seq(|ws|, i requires 0 <= i < |ws| => Mask(ws[i]))
  }

  /** Tokenizing is idempotent: re-tokenizing the space-joined tokens gives them back. */
  lemma TokenizeIdempotent(line: string)
    ensures Tokenize(Join(Tokenize(line), " ")) == Tokenize(line)
  {
    var ts := Tokenize(line);
    RunsOfJoin(ts, ' ', IsSpace);
    assert Words(Join(ts, " ")) == ts;
    forall i | 0 <= i < |ts|
      ensures Mask(ts[i]) == ts[i]
    {
      MaskIdempotent(Words(line)[i]);
    }
  }

  /** Any four digit groups joined by dots are masked as an IP address. */
  lemma DottedQuadIsMasked(a: string, b: string, c: string, d: string)
    requires IsDigits(a) && IsDigits(b) && IsDigits(c) && IsDigits(d)
    ensures Mask(Join([a, b, c, d], ".")) == IP
  {
    var f := [a, b, c, d];
    var t := Join(f, ".");
    FieldsOfJoin(f, '.');
    assert t == a + "." + Join(f[1..], ".");
    assert t[|a|] == '.' && !IsDigit('.');
  }

  lemma WithPortNotQuad(a: string, b: string, c: string, d: string, port: string)
    requires IsDigits(a) && IsDigits(b) && IsDigits(c) && IsDigits(d) && IsDigits(port)
    ensures !IsDottedQuad(Join([a, b, c, d + ":" + port], "."))
  {
    var last := d + ":" + port;
    var f := [a, b, c, last];
    assert forall i :: 0 <= i < |last| ==> last[i] != '.' by {
      assert forall i :: 0 <= i < |last| ==> IsDigit(last[i]) || last[i] == ':';
    }
    FieldsOfJoin(f, '.');
    assert last[|d|] == ':' && !IsDigit(':');
  }

  lemma WithPortNotNumber(a: string, rest: seq<string>)
    requires IsDigits(a) && |rest| > 0
    ensures !IsNumber(Join([a] + rest, "."))
  {
    var f := [a] + rest;
    var t := Join(f, ".");
    assert f[1..] == rest;
    assert t == a + "." + Join(rest, ".");
    assert t[|a|] == '.' && !IsDigit('.');
  }

  lemma WithPortNoSlash(a: string, b: string, c: string, d: string, port: string)
    requires IsDigits(a) && IsDigits(b) && IsDigits(c) && IsDigits(d) && IsDigits(port)
    ensures !IsPathLike(Join([a, b, c, d + ":" + port], "."))
    ensures !IsHexLiteral(Join([a, b, c, d + ":" + port], "."))
  {
    var last := d + ":" + port;
    var f := [a, b, c, last];
    var t := Join(f, ".");
    var p := (x: char) => IsDigit(x) || x == '.' || x == ':';
    assert AllChars(last, p) by {
      assert forall i :: 0 <= i < |last| ==> IsDigit(last[i]) || last[i] == ':';
    }
    JoinAllChars(f, ".", p);
    assert forall i :: 0 <= i < |t| ==> t[i] != '/' && t[i] != '\\' && t[i] != 'x';
  }

  /**
    The IP pattern is anchored at both ends: an address followed by `:port`
    (as in `192.168.1.1:8080`) is not a dotted quad, holds no slash, and so
    stays a literal token.
  */
  lemma AddressWithPortIsKept(a: string, b: string, c: string, d: string, port: string)
    requires IsDigits(a) && IsDigits(b) && IsDigits(c) && IsDigits(d) && IsDigits(port)
    ensures Mask(Join([a, b, c, d + ":" + port], ".")) == Join([a, b, c, d + ":" + port], ".")
  {
    WithPortNotQuad(a, b, c, d, port);
    assert [a, b, c, d + ":" + port] == [a] + [b, c, d + ":" + port];
    WithPortNotNumber(a, [b, c, d + ":" + port]);
    WithPortNoSlash(a, b, c, d, port);
  }
}
