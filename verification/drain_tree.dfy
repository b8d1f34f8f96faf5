/**
  The Drain parse tree (`DrainNode`, `DrainParser._find_best_match`,
  `DrainParser._add_to_tree`): a tree of fixed depth whose internal levels are
  keyed by the leading tokens of a line, and whose nodes hold log groups, one
  per template.
*/
module DrainTree {
  import opened Wrappers
  import opened Text
  import opened DrainSimilarity
  import opened DrainTokenizer

  /** The key of the overflow child that takes every token once a node is full. */
  const WILDCARD := "<*>"

  /** The parser's parameters: tree depth, similarity threshold, children per node. */
  datatype Config = Config(depth: nat, st: real, maxChild: nat)

  /** The default `DrainParser()`: depth 4, threshold 0.5, at most 100 children. */
  const DefaultConfig := Config(4, 0.5, 100)

  /** One template with the ids of the lines grouped under it and the first such line. */
  datatype LogGroup = LogGroup(template: string, logIds: seq<int>, frequency: nat, example: string)

  datatype Node = Node(depth: nat, token: Option<string>, children: map<string, Node>, groups: seq<LogGroup>)

  function Min(a: nat, b: nat): nat {
    if a <= b then a else b
  }

  // ---------------------------------------------------------------------------
  // Log groups of one node
  // ---------------------------------------------------------------------------

  /** The position of the first group whose template is `t`. */
  function IndexOf(gs: seq<LogGroup>, t: string): (r: Option<nat>)
    ensures r.Some? ==> r.value < |gs| && gs[r.value].template == t
    ensures r.Some? ==> forall j :: 0 <= j < r.value ==> gs[j].template != t
    ensures r.None? <==> forall j :: 0 <= j < |gs| ==> gs[j].template != t
  {
    if |gs| == 0 then None
    else if gs[0].template == t then Some(0)
    else match IndexOf(gs[1..], t)
      case Some(i) => Some(i + 1)
      case None => None
  }

  /** The first position holding `t` is the one `IndexOf` reports. */
  lemma IndexOfIsFirst(gs: seq<LogGroup>, t: string, i: nat)
    requires i < |gs| && gs[i].template == t
    requires forall j :: 0 <= j < i ==> gs[j].template != t
    ensures IndexOf(gs, t) == Some(i)
  {
  }

  /** The first group whose template is `t`. */
  function GroupOf(gs: seq<LogGroup>, t: string): Option<LogGroup> {
    match IndexOf(gs, t)
    case Some(i) => Some(gs[i])
    case None => None
  }

  /** Templates are pairwise distinct, and every frequency counts the group's ids. */
  predicate GroupsWF(gs: seq<LogGroup>) {
    (forall i, j :: 0 <= i < j < |gs| ==> gs[i].template != gs[j].template) &&
    (forall i :: 0 <= i < |gs| ==> gs[i].frequency == |gs[i].logIds|)
  }

  /** The group `template` has after one more line with id `logId` joined it. */
  function Grown(prior: Option<LogGroup>, logId: int, line: string, template: string): LogGroup {
    match prior
    case Some(g) => g.(logIds := g.logIds + [logId], frequency := g.frequency + 1)
    case None => LogGroup(template, [logId], 1, line)
  }

  /**
    `DrainNode.add_log_group`: the first group with this template takes the
    line; if there is none, a new group is appended.
  */
  function AddLogGroup(gs: seq<LogGroup>, logId: int, line: string, template: string): (r: seq<LogGroup>)
    ensures |r| == if IndexOf(gs, template).Some? then |gs| else |gs| + 1
    ensures forall i :: 0 <= i < |gs| ==> r[i].template == gs[i].template
    ensures forall i :: 0 <= i < |gs| && gs[i].template != template ==> r[i] == gs[i]
  {
    match IndexOf(gs, template)
    case Some(i) => gs[i := Grown(Some(gs[i]), logId, line, template)]
    case None => gs + [Grown(None, logId, line, template)]
  }

  /**
    After `add_log_group` the group of `template` has grown by exactly this
    line (or starts with it), and every other template's group is untouched.
  */
  lemma AddLogGroupGroups(gs: seq<LogGroup>, logId: int, line: string, template: string, t: string)
    ensures GroupOf(AddLogGroup(gs, logId, line, template), template) == Some(Grown(GroupOf(gs, template), logId, line, template))
    ensures t != template ==> GroupOf(AddLogGroup(gs, logId, line, template), t) == GroupOf(gs, t)
  {
    var r := AddLogGroup(gs, logId, line, template);
    match IndexOf(gs, template)
    case Some(i) =>
      IndexOfIsFirst(r, template, i);
    case None =>
      IndexOfIsFirst(r, template, |gs|);
      if t != template {
        match IndexOf(gs, t)
        case Some(j) => IndexOfIsFirst(r, t, j);
        case None =>
      }
  }

  /** `add_log_group` keeps templates distinct and frequencies equal to the number of ids. */
  lemma AddLogGroupKeepsWF(gs: seq<LogGroup>, logId: int, line: string, template: string)
    requires GroupsWF(gs)
    ensures GroupsWF(AddLogGroup(gs, logId, line, template))
  {
  }

  // ---------------------------------------------------------------------------
  // Best match at a leaf
  // ---------------------------------------------------------------------------

  /** Similarity of the line's remaining tokens with the re-tokenized template. */
  function Score(tokens: seq<string>, g: LogGroup): real {
    Similarity(tokens, Tokenize(g.template))
  }

  function Scores(tokens: seq<string>, gs: seq<LogGroup>): (r: seq<real>)
    ensures |r| == |gs|
    ensures forall i :: 0 <= i < |gs| ==> r[i] == Score(tokens, gs[i])
  {
    seq(|gs|, i requires 0 <= i < |gs| => Score(tokens, gs[i]))
  }

  /** A score may be chosen when it reaches the threshold and beats the initial best of 0. */
  predicate Qualifies(st: real, score: real) {
    score >= st && score > 0.0
  }

  /**
    The scan over a leaf's scores: a group replaces the best so far when it
    qualifies and its score is strictly higher. The result is the first
    position of maximal score, provided that one qualifies.
  */
  function BestIndex(st: real, scores: seq<real>): (r: Option<nat>)
    ensures r.Some? ==> r.value < |scores| && Qualifies(st, scores[r.value])
    ensures r.Some? ==> forall j :: 0 <= j < |scores| ==> scores[j] <= scores[r.value]
    ensures r.Some? ==> forall j :: 0 <= j < r.value ==> scores[j] < scores[r.value]
    ensures r.None? <==> forall j :: 0 <= j < |scores| ==> !Qualifies(st, scores[j])
  {
    if |scores| == 0 then None
    else
      var n := |scores| - 1;
      var prev := BestIndex(st, scores[..n]);
      assert forall j :: 0 <= j < n ==> scores[..n][j] == scores[j];
      var best := if prev.Some? then scores[prev.value] else 0.0;
      if Qualifies(st, scores[n]) && scores[n] > best then Some(n) else prev
  }

  /** The group a leaf offers for `tokens`: the one at the best index, when one qualifies. */
  function LeafMatch(st: real, tokens: seq<string>, gs: seq<LogGroup>): (r: Option<LogGroup>)
    ensures r.Some? <==> BestIndex(st, Scores(tokens, gs)).Some?
    ensures r.Some? ==> Qualifies(st, Score(tokens, r.value))
    ensures r.Some? ==> r.value == gs[BestIndex(st, Scores(tokens, gs)).value]
  {
    match BestIndex(st, Scores(tokens, gs))
    case Some(i) => Some(gs[i])
    case None => None
  }

  /** The tokens still unused after descending `levels` levels (one token per level). */
  function Remaining(tokens: seq<string>, levels: nat): seq<string> {
    tokens[Min(|tokens|, levels)..]
  }

  lemma RemainingStep(tokens: seq<string>, levels: nat)
    requires |tokens| > 0 && levels > 0
    ensures Remaining(tokens[1..], levels - 1) == Remaining(tokens, levels)
  {
  }

  /** How many levels lie below `depth` in a tree of depth `cfg.depth`. */
  function Below(cfg: Config, depth: nat): nat {
    if depth < cfg.depth then cfg.depth - depth else 0
  }

  // ---------------------------------------------------------------------------
  // Lookup and insertion
  // ---------------------------------------------------------------------------

  /**
    `_find_best_match`: descend through the exact-token child first and the
    `<*>` child second, taking the first one that yields a group; at depth
    `cfg.depth`, or when the tokens run out, pick the best group of the node.
  */
  function FindBestMatch(cfg: Config, tokens: seq<string>, node: Node, depth: nat): (r: Option<LogGroup>)
    ensures r.Some? ==> Qualifies(cfg.st, Score(Remaining(tokens, Below(cfg, depth)), r.value))
    ensures (depth >= cfg.depth || |tokens| == 0) ==>
      (r.Some? <==> BestIndex(cfg.st, Scores(tokens, node.groups)).Some?)
    ensures (depth >= cfg.depth || |tokens| == 0) && r.Some? ==>
      r.value == node.groups[BestIndex(cfg.st, Scores(tokens, node.groups)).value]
    decreases cfg.depth - depth
  {
    if depth >= cfg.depth || |tokens| == 0 then
      assert Remaining(tokens, Below(cfg, depth)) == tokens;
      LeafMatch(cfg.st, tokens, node.groups)
    else
      assert Below(cfg, depth + 1) == Below(cfg, depth) - 1;
      RemainingStep(tokens, Below(cfg, depth));
      var exact := if tokens[0] in node.children
        then FindBestMatch(cfg, tokens[1..], node.children[tokens[0]], depth + 1)
        else None;
      if exact.Some? then exact
      else if WILDCARD in node.children then FindBestMatch(cfg, tokens[1..], node.children[WILDCARD], depth + 1)
      else None
  }

  /** The child key a token goes under: the token itself, or `<*>` once the node is full. */
  function ChildKey(cfg: Config, node: Node, token: string): string {
    if |node.children| >= cfg.maxChild then WILDCARD else token
  }

  /**
    `_add_to_tree`: follow (creating where missing) one child per leading
    token, down to depth `cfg.depth` or until the tokens run out, and add the
    line to the groups of the node reached.
  */
  /** The child under `key`, or a fresh empty node one level down when there is none yet. */
  function ChildOrNew(node: Node, key: string, depth: nat): Node {
    if key in node.children then node.children[key] else Node(depth + 1, Some(key), map[], [])
  }

  function AddToTree(cfg: Config, logId: int, line: string, template: string, tokens: seq<string>, node: Node, depth: nat): (r: Node)
    ensures r.depth == node.depth && r.token == node.token
    ensures node.children.Keys <= r.children.Keys
    decreases cfg.depth - depth
  {
    if depth >= cfg.depth || |tokens| == 0 then
      node.(groups := AddLogGroup(node.groups, logId, line, template))
    else
      var key := ChildKey(cfg, node, tokens[0]);
      var child := ChildOrNew(node, key, depth);
      node.(children := node.children[key := AddToTree(cfg, logId, line, template, tokens[1..], child, depth + 1)])
  }

  /**
    The child keys `_add_to_tree` follows from `node`: the `ChildKey` of each
    leading token, one per level, until the bottom level or the end of the
    tokens.
  */
  function InsertPath(cfg: Config, tokens: seq<string>, node: Node, depth: nat): (p: seq<string>)
    ensures |p| == Min(|tokens|, Below(cfg, depth))
    decreases cfg.depth - depth
  {
    if depth >= cfg.depth || |tokens| == 0 then []
    else
      var key := ChildKey(cfg, node, tokens[0]);
      [key] + InsertPath(cfg, tokens[1..], ChildOrNew(node, key, depth), depth + 1)
  }

  /** The groups of the node reached from `n` by the keys `p`; none when the path leaves the tree. */
  function GroupsAt(n: Node, p: seq<string>): seq<LogGroup>
    decreases |p|
  {
    if |p| == 0 then n.groups
    else if p[0] in n.children then GroupsAt(n.children[p[0]], p[1..])
    else []
  }

  /** A node without children or groups holds no groups along any path. */
  lemma FreshGroupsAt(n: Node, p: seq<string>)
    requires n.children == map[] && n.groups == []
    ensures GroupsAt(n, p) == []
  {
  }

  /**
    Insertion stores the line at the end of its insertion path: the groups
    there become those of `add_log_group` applied to the groups found there
    before (none, when the path was not in the tree yet).
  */
  lemma {:induction false} AddToTreeStores(cfg: Config, logId: int, line: string, template: string, tokens: seq<string>, node: Node, depth: nat)
    ensures GroupsAt(AddToTree(cfg, logId, line, template, tokens, node, depth), InsertPath(cfg, tokens, node, depth)) ==
      AddLogGroup(GroupsAt(node, InsertPath(cfg, tokens, node, depth)), logId, line, template)
    decreases cfg.depth - depth
  {
    if !(depth >= cfg.depth || |tokens| == 0) {
      var key := ChildKey(cfg, node, tokens[0]);
      var child := ChildOrNew(node, key, depth);
      var q := InsertPath(cfg, tokens[1..], child, depth + 1);
      var c := AddToTree(cfg, logId, line, template, tokens[1..], child, depth + 1);
      AddToTreeStores(cfg, logId, line, template, tokens[1..], child, depth + 1);
      assert InsertPath(cfg, tokens, node, depth) == [key] + q;
      assert GroupsAt(AddToTree(cfg, logId, line, template, tokens, node, depth), [key] + q) == GroupsAt(c, q);
      if key !in node.children {
        FreshGroupsAt(child, q);
      }
    }
  }

  /** Insertion changes the groups of no node other than the one at the end of its path. */
  lemma {:induction false} AddToTreeFrame(cfg: Config, logId: int, line: string, template: string, tokens: seq<string>, node: Node, depth: nat, p: seq<string>)
    requires p != InsertPath(cfg, tokens, node, depth)
    ensures GroupsAt(AddToTree(cfg, logId, line, template, tokens, node, depth), p) == GroupsAt(node, p)
    decreases cfg.depth - depth
  {
    if !(depth >= cfg.depth || |tokens| == 0) && |p| > 0 {
      var key := ChildKey(cfg, node, tokens[0]);
      var child := ChildOrNew(node, key, depth);
      var q := InsertPath(cfg, tokens[1..], child, depth + 1);
      var c := AddToTree(cfg, logId, line, template, tokens[1..], child, depth + 1);
      if p[0] == key {
        assert InsertPath(cfg, tokens, node, depth) == [key] + q;
        assert p == [key] + p[1..];
        AddToTreeFrame(cfg, logId, line, template, tokens[1..], child, depth + 1, p[1..]);
        assert GroupsAt(AddToTree(cfg, logId, line, template, tokens, node, depth), p) == GroupsAt(c, p[1..]);
        if key !in node.children {
          FreshGroupsAt(child, p[1..]);
        }
      }
    }
  }

  // ---------------------------------------------------------------------------
  // Tree invariant
  // ---------------------------------------------------------------------------

  /**
    At most `maxChild` children, or exactly one more when the extra one is the
    `<*>` overflow child.
  */
  predicate FanOutOK(cfg: Config, n: Node) {
    |n.children| <= cfg.maxChild || (|n.children| == cfg.maxChild + 1 && WILDCARD in n.children)
  }

  /**
    The shape every reachable node keeps: depth within bounds, no children at
    the bottom level, bounded fan-out, children one level down and labelled
    with their key, well-formed groups, and below the root only templates that
    hold at least one word.
  */
  ghost predicate WF(cfg: Config, n: Node)
    decreases n
  {
    n.depth <= cfg.depth &&
    (n.depth == cfg.depth ==> n.children == map[]) &&
    FanOutOK(cfg, n) &&
    GroupsWF(n.groups) &&
    (n.depth > 0 ==> forall i :: 0 <= i < |n.groups| ==> |Words(n.groups[i].template)| > 0) &&
    (forall k :: k in n.children ==>
      n.children[k].depth == n.depth + 1 && n.children[k].token == Some(k) && WF(cfg, n.children[k]))
  }

  /** The empty tree: a root at depth 0 with no children and no groups. */
  function EmptyRoot(): (r: Node)
    ensures forall cfg :: WF(cfg, r)
  {
    Node(0, None, map[], [])
  }

  /** Only a template with words joins groups below the root, so they all keep words. */
  lemma AddLogGroupKeepsWords(gs: seq<LogGroup>, logId: int, line: string, template: string)
    requires forall i :: 0 <= i < |gs| ==> |Words(gs[i].template)| > 0
    requires |Words(template)| > 0
    ensures forall i :: 0 <= i < |AddLogGroup(gs, logId, line, template)| ==>
      |Words(AddLogGroup(gs, logId, line, template)[i].template)| > 0
  {
  }

  /** A new child, or an existing one, is a well-formed node one level down. */
  lemma ChildWF(cfg: Config, node: Node, key: string, depth: nat)
    requires WF(cfg, node) && node.depth == depth && depth < cfg.depth
    ensures WF(cfg, ChildOrNew(node, key, depth))
    ensures ChildOrNew(node, key, depth).depth == depth + 1 && ChildOrNew(node, key, depth).token == Some(key)
  {
  }

  /** Replacing the child under the key `ChildKey` chose keeps the fan-out bound. */
  lemma ChildKeyFanOut(cfg: Config, node: Node, token: string, c: Node)
    requires FanOutOK(cfg, node)
    ensures FanOutOK(cfg, node.(children := node.children[ChildKey(cfg, node, token) := c]))
  {
    var key := ChildKey(cfg, node, token);
    var m := node.children[key := c];
    if key in node.children {
      assert m.Keys == node.children.Keys;
    } else {
      assert m.Keys == node.children.Keys + {key};
    }
  }

  /** Adding a line keeps the tree well formed. */
  lemma {:induction false} AddToTreePreservesWF(cfg: Config, logId: int, line: string, template: string, tokens: seq<string>, node: Node, depth: nat)
    requires WF(cfg, node) && node.depth == depth
    requires (depth > 0 || |tokens| > 0) ==> |Words(template)| > 0
    ensures WF(cfg, AddToTree(cfg, logId, line, template, tokens, node, depth))
    decreases cfg.depth - depth, 1
  {
    if depth >= cfg.depth || |tokens| == 0 {
      AddLogGroupKeepsWF(node.groups, logId, line, template);
      if depth > 0 {
        AddLogGroupKeepsWords(node.groups, logId, line, template);
      }
    } else {
      AddToTreeStep(cfg, logId, line, template, tokens, node, depth);
    }
  }

  /** The inner step of `AddToTreePreservesWF`: descending into one child. */
  lemma {:induction false} AddToTreeStep(cfg: Config, logId: int, line: string, template: string, tokens: seq<string>, node: Node, depth: nat)
    requires WF(cfg, node) && node.depth == depth
    requires depth < cfg.depth && |tokens| > 0 && |Words(template)| > 0
    ensures WF(cfg, AddToTree(cfg, logId, line, template, tokens, node, depth))
    decreases cfg.depth - depth, 0
  {
    var key := ChildKey(cfg, node, tokens[0]);
    var child := ChildOrNew(node, key, depth);
    ChildWF(cfg, node, key, depth);
    AddToTreePreservesWF(cfg, logId, line, template, tokens[1..], child, depth + 1);
    var c := AddToTree(cfg, logId, line, template, tokens[1..], child, depth + 1);
    ChildKeyFanOut(cfg, node, tokens[0], c);
    ReplaceChildWF(cfg, node, key, c);
  }

  /** Putting a well-formed child one level down under its own key keeps the parent well formed. */
  lemma ReplaceChildWF(cfg: Config, node: Node, key: string, c: Node)
    requires WF(cfg, node) && node.depth < cfg.depth
    requires WF(cfg, c) && c.depth == node.depth + 1 && c.token == Some(key)
    requires FanOutOK(cfg, node.(children := node.children[key := c]))
    ensures WF(cfg, node.(children := node.children[key := c]))
  {
  }

  /** With nothing left of the line, only a template without words scores above 0. */
  lemma EmptyTokensScore(st: real, g: LogGroup)
    requires |Words(g.template)| > 0
    ensures !Qualifies(st, Score([], g))
  {
    var b := Tokenize(g.template);
    assert b[0] in b;
    SimilarityPositiveIff([], b);
  }

  /**
    A line of 1 to `cfg.depth` tokens never matches an existing template: it
    is used up on the way down, so at the leaf its empty remainder is compared
    with templates that all hold words, and every score is 0.
  */
  lemma {:induction false} ShortLineNeverMatches(cfg: Config, tokens: seq<string>, node: Node, depth: nat)
    requires WF(cfg, node) && node.depth == depth
    requires 0 < |tokens| <= Below(cfg, depth)
    ensures FindBestMatch(cfg, tokens, node, depth) == None
    decreases cfg.depth - depth, 0
  {
    assert depth < cfg.depth;
    ChildNoMatch(cfg, tokens, node, depth, tokens[0]);
    ChildNoMatch(cfg, tokens, node, depth, WILDCARD);
    InnerNoMatch(cfg, tokens, node, depth);
  }

  /** The rest of a short line finds nothing below any child of a well-formed node. */
  lemma {:induction false} ChildNoMatch(cfg: Config, tokens: seq<string>, node: Node, depth: nat, key: string)
    requires WF(cfg, node) && node.depth == depth && depth < cfg.depth
    requires 0 < |tokens| <= Below(cfg, depth)
    ensures key in node.children ==> FindBestMatch(cfg, tokens[1..], node.children[key], depth + 1) == None
    decreases cfg.depth - depth - 1, 2
  {
    if key in node.children {
      assert |tokens[1..]| <= Below(cfg, depth + 1);
      ChildOfWF(cfg, node, key);
      ChildNeverMatches(cfg, tokens[1..], node.children[key], depth + 1);
    }
  }

  /** Every child of a well-formed node is a well-formed node one level down. */
  lemma ChildOfWF(cfg: Config, node: Node, k: string)
    requires WF(cfg, node) && k in node.children
    ensures WF(cfg, node.children[k]) && node.children[k].depth == node.depth + 1
  {
  }

  /** At an inner level the search fails when both the exact and the `<*>` child fail. */
  lemma InnerNoMatch(cfg: Config, tokens: seq<string>, node: Node, depth: nat)
    requires depth < cfg.depth && |tokens| > 0
    requires tokens[0] in node.children ==> FindBestMatch(cfg, tokens[1..], node.children[tokens[0]], depth + 1) == None
    requires WILDCARD in node.children ==> FindBestMatch(cfg, tokens[1..], node.children[WILDCARD], depth + 1) == None
    ensures FindBestMatch(cfg, tokens, node, depth) == None
  {
  }

  lemma {:induction false} ChildNeverMatches(cfg: Config, tokens: seq<string>, node: Node, depth: nat)
    requires WF(cfg, node) && node.depth == depth && depth > 0
    requires |tokens| <= Below(cfg, depth)
    ensures FindBestMatch(cfg, tokens, node, depth) == None
    decreases cfg.depth - depth, 1
  {
    if |tokens| == 0 {
      var scores := Scores(tokens, node.groups);
      forall j | 0 <= j < |scores|
        ensures !Qualifies(cfg.st, scores[j])
      {
        EmptyTokensScore(cfg.st, node.groups[j]);
      }
    } else {
      ShortLineNeverMatches(cfg, tokens, node, depth);
    }
  }

  /** `g` is one of the groups stored at `n` or at a node below it. */
  ghost predicate InTree(g: LogGroup, n: Node)
    decreases n
  {
    g in n.groups || exists k :: k in n.children && InTree(g, n.children[k])
  }

  /** Lookup only returns a group already stored in the tree it searches. */
  lemma {:induction false} FoundInTree(cfg: Config, tokens: seq<string>, node: Node, depth: nat)
    ensures FindBestMatch(cfg, tokens, node, depth).Some? ==> InTree(FindBestMatch(cfg, tokens, node, depth).value, node)
    decreases cfg.depth - depth, 1
  {
    if depth >= cfg.depth || |tokens| == 0 {
      LeafResult(cfg, tokens, node, depth);
    } else {
      FoundBelow(cfg, tokens, node, depth);
    }
  }

  lemma {:induction false} FoundBelow(cfg: Config, tokens: seq<string>, node: Node, depth: nat)
    requires depth < cfg.depth && |tokens| > 0
    ensures FindBestMatch(cfg, tokens, node, depth).Some? ==> InTree(FindBestMatch(cfg, tokens, node, depth).value, node)
    decreases cfg.depth - depth, 0
  {
    var r := FindBestMatch(cfg, tokens, node, depth);
    var k := InnerResult(cfg, tokens, node, depth);
    if r.Some? {
      FoundInTree(cfg, tokens[1..], node.children[k], depth + 1);
      InTreeChild(r.value, node, k);
    }
  }

  /** At the bottom the result is one of the node's own groups. */
  lemma LeafResult(cfg: Config, tokens: seq<string>, node: Node, depth: nat)
    requires depth >= cfg.depth || |tokens| == 0
    ensures FindBestMatch(cfg, tokens, node, depth).Some? ==> FindBestMatch(cfg, tokens, node, depth).value in node.groups
    ensures FindBestMatch(cfg, tokens, node, depth).Some? ==> InTree(FindBestMatch(cfg, tokens, node, depth).value, node)
  {
  }

  /** Above the bottom the result comes from the exact-token child or from the `<*>` child. */
  lemma InnerResult(cfg: Config, tokens: seq<string>, node: Node, depth: nat) returns (k: string)
    requires depth < cfg.depth && |tokens| > 0
    ensures var r := FindBestMatch(cfg, tokens, node, depth);
      r.Some? ==> (k in node.children && (k == tokens[0] || k == WILDCARD) &&
                   r == FindBestMatch(cfg, tokens[1..], node.children[k], depth + 1))
    ensures tokens[0] in node.children && FindBestMatch(cfg, tokens[1..], node.children[tokens[0]], depth + 1).Some? ==>
      FindBestMatch(cfg, tokens, node, depth) == FindBestMatch(cfg, tokens[1..], node.children[tokens[0]], depth + 1)
    ensures (tokens[0] !in node.children || FindBestMatch(cfg, tokens[1..], node.children[tokens[0]], depth + 1).None?) ==>
      FindBestMatch(cfg, tokens, node, depth) ==
        (if WILDCARD in node.children then FindBestMatch(cfg, tokens[1..], node.children[WILDCARD], depth + 1) else None)
  {
    k := if tokens[0] in node.children && FindBestMatch(cfg, tokens[1..], node.children[tokens[0]], depth + 1).Some?
      then tokens[0] else WILDCARD;
  }

  lemma InTreeChild(g: LogGroup, n: Node, k: string)
    requires k in n.children && InTree(g, n.children[k])
    ensures InTree(g, n)
  {
  }

  /** Above the bottom, lookup finds nothing exactly when neither the exact-token child nor the `<*>` child yields a group. */
  lemma InnerNone(cfg: Config, tokens: seq<string>, node: Node, depth: nat)
    requires depth < cfg.depth && |tokens| > 0
    ensures FindBestMatch(cfg, tokens, node, depth).None? <==>
      (tokens[0] in node.children ==> FindBestMatch(cfg, tokens[1..], node.children[tokens[0]], depth + 1).None?) &&
      (WILDCARD in node.children ==> FindBestMatch(cfg, tokens[1..], node.children[WILDCARD], depth + 1).None?)
  {
    var _ := InnerResult(cfg, tokens, node, depth);
  }

  /** Every group along a path is stored in the tree. */
  lemma {:induction false} GroupsAtInTree(n: Node, p: seq<string>, g: LogGroup)
    requires g in GroupsAt(n, p)
    ensures InTree(g, n)
    decreases |p|
  {
    if |p| > 0 {
      GroupsAtInTree(n.children[p[0]], p[1..], g);
    }
  }

  /** After insertion the tree holds a group with the inserted template. */
  lemma AddToTreeHoldsTemplate(cfg: Config, logId: int, line: string, template: string, tokens: seq<string>, node: Node, depth: nat)
    ensures exists g :: InTree(g, AddToTree(cfg, logId, line, template, tokens, node, depth)) && g.template == template
  {
    var path := InsertPath(cfg, tokens, node, depth);
    var before := GroupsAt(node, path);
    AddToTreeStores(cfg, logId, line, template, tokens, node, depth);
    AddLogGroupGroups(before, logId, line, template, template);
    var gs := AddLogGroup(before, logId, line, template);
    var i := IndexOf(gs, template).value;
    GroupsAtInTree(AddToTree(cfg, logId, line, template, tokens, node, depth), path, gs[i]);
  }
}
