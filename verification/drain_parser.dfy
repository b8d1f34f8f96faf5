/**
  `DrainParser.parse`: the line-to-template cache in front of the tree, the
  construction of a new template from a line's tokens, and the catalog lookup
  every parse ends with.
*/
module DrainParser {
  import opened Wrappers
  import opened Text
  import opened OrderedMap
  import opened DrainTokenizer
  import opened DrainTree
  import opened TemplateCatalog

  /** How many leading characters of an ordinary token a template keeps. */
  const PREFIX_LEN := 8

  /** The parser's state: its parameters, tree and cache, and the template catalog it writes to. */
  datatype Parser = Parser(cfg: Config, root: Node, cache: map<string, string>, catalog: Catalog)

  /** The result of one `parse` call: the new state, the template and its id. */
  datatype Parsed = Parsed(parser: Parser, template: string, id: nat)

  /** A fresh parser over an existing catalog (the catalog outlives parser instances). */
  function NewParser(cfg: Config, catalog: Catalog): (p: Parser)
    ensures p.root.depth == 0 && p.root.children == map[] && p.root.groups == [] && p.cache == map[]
  {
    Parser(cfg, EmptyRoot(), map[], catalog)
  }

  // ---------------------------------------------------------------------------
  // Building a template
  // ---------------------------------------------------------------------------

  /** One template token: a placeholder as it is, any other token cut to its first 8 characters. */
  function Truncate(t: string): string {
    if IsPlaceholder(t) then t
    else if |t| > PREFIX_LEN then t[..PREFIX_LEN]
    else t
  }

  /**
    Every placeholder is at most 8 characters long, so keeping placeholders
    apart changes nothing: each template token is the first 8 characters of
    its line token.
  */
  lemma TruncateIsPrefix(t: string)
    ensures Truncate(t) == t[..Min(|t|, PREFIX_LEN)]
  {
  }

  /** The template tokens of a line: one per token, in order. */
  function TemplateTokens(tokens: seq<string>): (r: seq<string>)
    ensures |r| == |tokens|
    ensures forall i :: 0 <= i < |r| ==> r[i] == Truncate(tokens[i])
  {
    seq(|tokens|, i requires 0 <= i < |tokens| => Truncate(tokens[i]))
  }

  /** `' '.join(template_tokens)`. */
  function BuildTemplate(tokens: seq<string>): string {
    Join(TemplateTokens(tokens), " ")
  }

  /**
    A template built from a line's tokens has exactly one word per token:
    each placeholder, and each other token's first 8 characters.
  */
  lemma BuildTemplateWords(tokens: seq<string>)
    requires forall i :: 0 <= i < |tokens| ==> IsRun(tokens[i], IsSpace)
    ensures Words(BuildTemplate(tokens)) == TemplateTokens(tokens)
    ensures |Words(BuildTemplate(tokens))| == |tokens|
    ensures forall i :: 0 <= i < |tokens| ==>
      Words(BuildTemplate(tokens))[i] == (if IsPlaceholder(tokens[i]) then tokens[i] else tokens[i][..Min(|tokens[i]|, PREFIX_LEN)])
  {
    var ts := TemplateTokens(tokens);
    forall i | 0 <= i < |ts|
      ensures IsRun(ts[i], IsSpace)
    {
      TruncateIsPrefix(tokens[i]);
      assert forall j :: 0 <= j < |ts[i]| ==> ts[i][j] == tokens[i][j];
    }
    RunsOfJoin(ts, ' ', IsSpace);
    forall i | 0 <= i < |tokens|
      ensures ts[i] == (if IsPlaceholder(tokens[i]) then tokens[i] else tokens[i][..Min(|tokens[i]|, PREFIX_LEN)])
    {
      TruncateIsPrefix(tokens[i]);
    }
  }

  // ---------------------------------------------------------------------------
  // Parsing one line
  // ---------------------------------------------------------------------------

  /**
    `parse(log_line, log_id)`: a cached line reuses its template; otherwise
    the best matching group's template is used without touching the tree, and
    only when nothing matches is a new template built and inserted (under id
    0 when no id is given). Every path ends with one catalog lookup.
  */
  function Parse(p: Parser, line: string, logId: Option<int>): (r: Parsed)
    ensures r.parser.cfg == p.cfg
    ensures r.parser.cache == p.cache[line := r.template]
    ensures line in p.cache ==> r.template == p.cache[line] && r.parser.root == p.root
    ensures line !in p.cache && FindBestMatch(p.cfg, Tokenize(line), p.root, 0).Some? ==>
      r.template == FindBestMatch(p.cfg, Tokenize(line), p.root, 0).value.template && r.parser.root == p.root
    ensures line !in p.cache && FindBestMatch(p.cfg, Tokenize(line), p.root, 0).None? ==>
      r.template == BuildTemplate(Tokenize(line)) &&
      r.parser.root == AddToTree(p.cfg, logId.GetOr(0), line, r.template, Tokenize(line), p.root, 0)
    ensures IdOf(r.parser.catalog, r.template) == Some(r.id)
    ensures FrequencyOf(r.parser.catalog, r.template) == FrequencyOf(p.catalog, r.template) + 1
    ensures forall q :: q != r.template ==> IdOf(r.parser.catalog, q) == IdOf(p.catalog, q)
    ensures Total(r.parser.catalog) == Total(p.catalog) + 1
    ensures |r.parser.catalog| <= |p.catalog| + 1
  {
    if line in p.cache then
      var t := p.cache[line];
      var l := GetOrCreate(p.catalog, t);
      Parsed(p.(catalog := l.catalog), t, l.id)
    else
      var tokens := Tokenize(line);
      match FindBestMatch(p.cfg, tokens, p.root, 0)
      case Some(g) =>
        var l := GetOrCreate(p.catalog, g.template);
        Parsed(p.(cache := p.cache[line := g.template], catalog := l.catalog), g.template, l.id)
      case None =>
        var t := BuildTemplate(tokens);
        var l := GetOrCreate(p.catalog, t);
        var root := AddToTree(p.cfg, logId.GetOr(0), line, t, tokens, p.root, 0);
        Parsed(Parser(p.cfg, root, p.cache[line := t], l.catalog), t, l.id)
  }

  /**
    The parser's invariant: a well-formed tree rooted at depth 0, a catalog
    without repeated patterns, and every cached template present in it.
  */
  ghost predicate Valid(p: Parser) {
    WF(p.cfg, p.root) && p.root.depth == 0 &&
    DistinctKeys(p.catalog) &&
    forall line :: line in p.cache ==> IdOf(p.catalog, p.cache[line]).Some?
  }

  lemma NewParserValid(cfg: Config, catalog: Catalog)
    requires DistinctKeys(catalog)
    ensures Valid(NewParser(cfg, catalog))
  {
  }

  /** Every parse keeps the parser valid. */
  lemma ParsePreservesValid(p: Parser, line: string, logId: Option<int>)
    requires Valid(p)
    ensures Valid(Parse(p, line, logId).parser)
  {
    var r := Parse(p, line, logId);
    if line !in p.cache && FindBestMatch(p.cfg, Tokenize(line), p.root, 0).None? {
      var tokens := Tokenize(line);
      var t := BuildTemplate(tokens);
      if |tokens| > 0 {
        BuildTemplateWords(tokens);
      }
      AddToTreePreservesWF(p.cfg, logId.GetOr(0), line, t, tokens, p.root, 0);
    }
    forall l | l in r.parser.cache
      ensures IdOf(r.parser.catalog, r.parser.cache[l]).Some?
    {
      if l != line && r.parser.cache[l] != r.template {
        assert IdOf(r.parser.catalog, r.parser.cache[l]) == IdOf(p.catalog, p.cache[l]);
      }
    }
  }

  /**
    A line that is neither cached nor matched is stored in the tree under its
    new template: at the end of the line's insertion path, the template's
    group gains this line (under id 0 when no id is given), or starts with it,
    and no other node's groups change.
  */
  lemma ParseStoresNewTemplate(p: Parser, line: string, logId: Option<int>, q: seq<string>)
    requires line !in p.cache && FindBestMatch(p.cfg, Tokenize(line), p.root, 0).None?
    ensures var r := Parse(p, line, logId);
      var path := InsertPath(p.cfg, Tokenize(line), p.root, 0);
      GroupOf(GroupsAt(r.parser.root, path), r.template) ==
        Some(Grown(GroupOf(GroupsAt(p.root, path), r.template), logId.GetOr(0), line, r.template))
    ensures var path := InsertPath(p.cfg, Tokenize(line), p.root, 0);
      q != path ==> GroupsAt(Parse(p, line, logId).parser.root, q) == GroupsAt(p.root, q)
  {
    var r := Parse(p, line, logId);
    var tokens := Tokenize(line);
    var path := InsertPath(p.cfg, tokens, p.root, 0);
    AddToTreeStores(p.cfg, logId.GetOr(0), line, r.template, tokens, p.root, 0);
    AddLogGroupGroups(GroupsAt(p.root, path), logId.GetOr(0), line, r.template, r.template);
    if q != path {
      AddToTreeFrame(p.cfg, logId.GetOr(0), line, r.template, tokens, p.root, 0, q);
    }
  }

  /**
    Parsing the same line again is served by the cache: the same template,
    the same id, and an unchanged tree and cache.
  */
  lemma ReparseIsStable(p: Parser, line: string, id1: Option<int>, id2: Option<int>)
    ensures var r1 := Parse(p, line, id1);
      var r2 := Parse(r1.parser, line, id2);
      r2.template == r1.template && r2.id == r1.id &&
      r2.parser.root == r1.parser.root && r2.parser.cache == r1.parser.cache
  {
  }

  /** Parsing a sequence of (line, id) pairs in order. */
  function ParseAll(p: Parser, lines: seq<(string, Option<int>)>): (r: Parser)
    ensures r.cfg == p.cfg
    ensures p.cache.Keys <= r.cache.Keys
    ensures forall k :: 0 <= k < |lines| ==> lines[k].0 in r.cache
    decreases |lines|
  {
    if |lines| == 0 then p
    else ParseAll(Parse(p, lines[0].0, lines[0].1).parser, lines[1..])
  }

  /**
    Every parse adds exactly one to the catalog's total frequency and at most
    one row, so after `n` lines the total has grown by `n` and the row count
    by at most `n`.
  */
  lemma {:induction false} ParseAllCounts(p: Parser, lines: seq<(string, Option<int>)>)
    ensures Total(ParseAll(p, lines).catalog) == Total(p.catalog) + |lines|
    ensures |ParseAll(p, lines).catalog| <= |p.catalog| + |lines|
    decreases |lines|
  {
    if |lines| > 0 {
      ParseAllCounts(Parse(p, lines[0].0, lines[0].1).parser, lines[1..]);
    }
  }

  /** The parser stays valid over any sequence of lines. */
  lemma {:induction false} ParseAllValid(p: Parser, lines: seq<(string, Option<int>)>)
    requires Valid(p)
    ensures Valid(ParseAll(p, lines))
    decreases |lines|
  {
    if |lines| > 0 {
      ParsePreservesValid(p, lines[0].0, lines[0].1);
      ParseAllValid(Parse(p, lines[0].0, lines[0].1).parser, lines[1..]);
    }
  }

  // ---------------------------------------------------------------------------
  // Statistics
  // ---------------------------------------------------------------------------

  datatype Stats = Stats(totalTemplates: nat, totalLogsParsed: nat, treeDepth: nat, similarityThreshold: real)

  /**
    `get_template_statistics`: row count, frequency sum, and the two
    parameters. Every template id is at most the row count and every
    template's frequency at most the logs parsed. In a catalog without
    repeated patterns, the stored patterns carry exactly the ids 1 to the
    template count, and the logs parsed are their frequencies added up.
  */
  function Statistics(p: Parser): (s: Stats)
    ensures forall t :: IdOf(p.catalog, t).Some? ==> IdOf(p.catalog, t).value <= s.totalTemplates
    ensures forall t :: FrequencyOf(p.catalog, t) <= s.totalLogsParsed
    ensures DistinctKeys(p.catalog) ==>
      s.totalTemplates == |Keys(p.catalog)| &&
      forall n :: 1 <= n <= s.totalTemplates ==> IdOf(p.catalog, Keys(p.catalog)[n - 1]) == Some(n)
    ensures DistinctKeys(p.catalog) ==> s.totalLogsParsed == FrequencySum(p.catalog, Keys(p.catalog))
    ensures s.treeDepth == p.cfg.depth && s.similarityThreshold == p.cfg.st
  {
    FrequencyAtMostTotal(p.catalog);
    CatalogRows(p.catalog);
    Stats(|p.catalog|, Total(p.catalog), p.cfg.depth, p.cfg.st)
  }

  /**
    Starting from an empty catalog, the statistics after parsing `n` lines
    report `n` logs parsed and at most `n` templates.
  */
  lemma StatisticsCountParses(cfg: Config, lines: seq<(string, Option<int>)>)
    ensures var s := Statistics(ParseAll(NewParser(cfg, []), lines));
      s.totalLogsParsed == |lines| && s.totalTemplates <= |lines| && s.treeDepth == cfg.depth && s.similarityThreshold == cfg.st
  {
    ParseAllCounts(NewParser(cfg, []), lines);
  }

  /**
    From any parser, the statistics after parsing `n` more lines report `n`
    more logs parsed and at most `n` more templates.
  */
  lemma StatisticsAfterParses(p: Parser, lines: seq<(string, Option<int>)>)
    ensures var s := Statistics(ParseAll(p, lines));
      s.totalLogsParsed == Statistics(p).totalLogsParsed + |lines| &&
      s.totalTemplates <= Statistics(p).totalTemplates + |lines|
  {
    ParseAllCounts(p, lines);
  }
}
