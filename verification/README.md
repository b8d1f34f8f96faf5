# llm-log-responder core, modelled in Dafny

This project models the deterministic core of llm-log-responder. That tool
watches system logs, mines templates from log lines, retrieves related log
context, suggests alert rules, runs remediation tools behind an approval
gate, and answers operator queries. Every database query, LLM reply,
subprocess outcome, configuration file and terminal answer that the Python
code obtains at run time is a parameter here. What remains is a set of pure
functions and one method over immutable datatypes.

Modules follow the Python files:

- `Wrappers` holds `Option`.
- `Text` is ASCII string handling: strip, split into runs, join, substring
  containment, case mapping, and integer and string conversion.
- `OrderedMap` is a Python `dict` as a sequence of entries in insertion
  order: update in place, append on a new key.
- `StableSort` is Python's stable `sorted(..., reverse=True)`. It is an index
  permutation ordered by score descending, then by original position.
- `DrainTokenizer`, `DrainSimilarity`, `DrainTree`, `TemplateCatalog` and
  `DrainParser` model the Drain online template miner (`drain_parser.py`).
  The pieces are:
  - masking tokens as `<NUM>`, `<IP>`, `<HEX>` or `<PATH>`;
  - Jaccard similarity over token sets;
  - a fixed-depth prefix tree with bounded fan-out and a `<*>` overflow child;
  - leaf best match;
  - templates with tokens truncated to 8 characters;
  - the line cache;
  - the template catalog as an ordered map from pattern to frequency, where
    the id is the row position plus one.
- `RagRetrieval` covers `rag_framework.py`. It models the retrieval merge:
  - semantic top-k;
  - the keyword fallback;
  - the template, semantic and keyword merge rules;
  - the final stable sort and truncation;
  - the de-duplication and context building of the time-window summary.
- `AlertRules` covers `alert_rule_generator.py`: pattern classification,
  counting, ordering, regex mapping, thresholds, actions and the generated
  bash script.
- `McpTools` covers `mcp_tools.py`: the default schema, the registry
  (a later duplicate overrides an earlier one), validation, description and
  listing.
- `ApprovalGate` covers `approval_gate.py`: the configuration defaults, the
  per-action settings, dry-run mode and the interactive prompt.
- `McpServer` covers `mcp_server.py`: `execute_mcp_tool` as a pipeline that
  returns the result, the audit trail and the database record.
- `IncidentHandler` covers `incident_handler.py`: the exit code, the
  resolve decision and the summary replacement.
- `QueryInterface` covers `query_interface.py`: time-window extraction,
  routing, the restart recommendation and the answers.
- `Evaluation` covers `evaluation.py`: anomaly-detection counting, dataset
  scores and summary quality.

Where the code and its documentation disagree, the model follows the code:

- **Evaluation.** `evaluation.py:51-54` lists `Failed` and `Timeout` as
  anomaly keywords, but tests them against the upper-cased line, where
  neither can ever occur. A line is flagged exactly when its upper-case form
  contains `ERROR` or `CRITICAL` (`Evaluation.FlaggedOnlyByUpperKeywords`).
- **Drain lookup.** At a leaf, lookup compares the tokens left over after
  one token per tree level with the whole re-tokenized template
  (`drain_parser.py:118-119`). So a line with 1 to `depth` tokens never
  matches a template that is already stored (`DrainTree.ShortLineNeverMatches`).
  Such a line goes down the insertion path again each time it is not cached.
- **Alert rules.** In `suggest_alert_rules`, the `critical` branch tests the
  lower-case word against an upper-cased string, so it can never fire
  (`AlertRules.CriticalBranchIsDead`).
- **Dry-run mode.** In dry-run mode, `request_approval` answers
  `(False, "dry_run_mode")`. A tool that needs approval is therefore always
  rejected and never reaches the dry-run report (`McpServer.DryRunOutcomes`).
- **Template lookup import.** `database.py` defines no `get_logs_by_template_id`. So the import at `rag_framework.py:24` raises `ImportError`, and `incident_handler.py:16` fails with it when it imports `rag_framework`. The model assumes a database that provides the function.
- **Restart recommendation.** With no errors, the test for "no" already
  covers "not", so the second test is redundant
  (`QueryInterface.NotIsRedundant`).

## Model

| member | source | states |
|---|---|---|
| DrainTokenizer.Mask | drain_parser.py:73-87 | Each mask class is chosen exactly when its pattern matches and no earlier pattern does: `<NUM>` for digits, then `<IP>` for a dotted quad, `<HEX>` for a `0x` literal, `<PATH>` for a path-like token. A placeholder maps to itself, and a token is kept verbatim exactly when no class applies. |
| DrainTokenizer.ClassesDisjoint | drain_parser.py:75-85 | The four mask classes are mutually exclusive, so the priority order of the `if` chain decides nothing that overlaps. |
| DrainTokenizer.PlaceholderNotMaskable | drain_parser.py:75-87 | A placeholder such as `<NUM>` is not itself maskable, so masking keeps it. |
| DrainTokenizer.MaskIdempotent | drain_parser.py:73-87 | Masking an already masked token changes nothing. |
| DrainTokenizer.Tokenize | drain_parser.py:60-89 | The line yields one token per whitespace-separated word of the stripped line (none for a blank line). Each token is that word masked and contains no whitespace. |
| DrainTokenizer.TokenizeIdempotent | drain_parser.py:60-89 | Re-tokenizing the space-joined tokens gives the same tokens. This is the round trip that template matching relies on. |
| DrainTokenizer.DottedQuadIsMasked | drain_parser.py:77-79 | Four digit groups joined by dots are masked as `<IP>`. |
| DrainTokenizer.AddressWithPortIsKept | drain_parser.py:77-87 | An address with a port such as `192.168.1.1:8080` matches none of the anchored patterns and is kept verbatim. |
| DrainSimilarity.Similarity | drain_parser.py:91-105 | The similarity lies in [0, 1] and is 1 when both token sets are empty. |
| DrainSimilarity.SimilaritySymmetric | drain_parser.py:96-105 | The similarity is symmetric in its two arguments. |
| DrainSimilarity.SimilarityOneIffSameTokens | drain_parser.py:96-105 | The similarity is 1 exactly when the two token sets are equal. |
| DrainSimilarity.SimilarityPositiveIff | drain_parser.py:96-105 | The similarity is positive exactly when both lists are empty or they share a token. |
| DrainTree.IndexOf | drain_parser.py:25-29 | Finds the first group with the template, and says none exists when no group holds it. |
| DrainTree.AddLogGroup | drain_parser.py:22-37 | The group count grows by one exactly when the template is new. Every existing template stays at its position, and groups of other templates are untouched. |
| DrainTree.AddLogGroupGroups | drain_parser.py:22-37 | After the call, the template's group is the old group with the id appended and the frequency plus one, or a fresh group of frequency 1. Every other template's group is unchanged. |
| DrainTree.AddLogGroupKeepsWF | drain_parser.py:22-37 | Templates within a node stay pairwise distinct, and every frequency equals the number of its log ids. |
| DrainTree.BestIndex | drain_parser.py:111-126 | The chosen group reaches the threshold and is above 0. No group scores higher, and every earlier group scores strictly lower. Nothing is chosen exactly when no group qualifies. |
| DrainTree.FindBestMatch | drain_parser.py:107-143 | A returned group qualifies against the tokens left over after one token per tree level. At the leaf level, or when the tokens run out, a group is returned exactly when the best-match choice over the node's groups picks one, and it is that group. |
| DrainTree.FoundInTree | drain_parser.py:107-143 | Lookup returns only a group already stored at the searched node or below it. |
| DrainTree.InnerResult | drain_parser.py:128-143 | Above the leaf level, the result comes from the exact-token child or the `<*>` child. The exact child's match wins when there is one. Otherwise the result is the `<*>` child's match, or nothing when there is no `<*>` child. |
| DrainTree.InnerNone | drain_parser.py:128-143 | Above the leaf level, nothing is found exactly when neither the exact-token child nor the `<*>` child yields a match. |
| DrainTree.AddToTree | drain_parser.py:145-167 | Insertion keeps the node's depth and label and never removes a child. |
| DrainTree.AddToTreeStores | drain_parser.py:145-167 | Along the insertion path (one child key per level: the token, or `<*>` when the node is full), the leaf's groups become the old groups with the line added to the template's group, or a new group for it. |
| DrainTree.AddToTreeFrame | drain_parser.py:145-167 | The groups at every path other than the insertion path are unchanged. |
| DrainTree.AddToTreeHoldsTemplate | drain_parser.py:145-167 | After insertion the tree holds a group with the inserted template. |
| DrainTree.AddToTreePreservesWF | drain_parser.py:150-167 | Insertion preserves the tree invariant: no node deeper than the configured depth, at most `max_child` children plus the `<*>` overflow, children one level down and labelled by their key, and well-formed groups. |
| DrainTree.EmptyRoot | drain_parser.py:56 | The fresh root satisfies the tree invariant for every configuration. |
| DrainTree.ShortLineNeverMatches | drain_parser.py:111-143 | In a well-formed tree, a line with 1 to `depth` tokens never matches a stored template. |
| TemplateCatalog.IdOf | drain_parser.py:243-259 | A pattern's id is its 1-based row, and there is an id exactly when the pattern is in the catalog. |
| TemplateCatalog.GetOrCreate | drain_parser.py:221-269 | A known pattern keeps its id and the catalog size. A new one gets the next id. Its frequency grows by one, every other pattern's id and frequency is unchanged, the total frequency grows by one, and patterns stay distinct. |
| TemplateCatalog.FrequencyAtMostTotal | drain_parser.py:275-279 | No template's frequency exceeds the sum of all frequencies. |
| DrainParser.TruncateIsPrefix | drain_parser.py:206 | A truncated token is its first at most 8 characters. |
| DrainParser.BuildTemplateWords | drain_parser.py:199-208 | A new template has exactly as many words as the line has tokens. Placeholders are kept, and every other token is cut to 8 characters. |
| DrainParser.NewParserValid | drain_parser.py:44-57 | A new parser over a catalog with distinct patterns satisfies the parser invariant. |
| DrainParser.Parse | drain_parser.py:169-219 | The cache maps the line to the returned template. A cached line returns its cached template without touching the tree. A matched line returns the match's template and leaves the tree unchanged. Otherwise the template is built from the tokens and inserted into the tree under the log id, or 0 without one. The catalog returns the template's id, its frequency grows by one, other patterns keep their ids, and total frequency grows by one. |
| DrainParser.ParsePreservesValid | drain_parser.py:169-219 | Parsing preserves the tree invariant and the distinctness of catalog patterns. |
| DrainParser.ParseStoresNewTemplate | drain_parser.py:198-219 | When nothing matches, the new template's group on the insertion path holds the line, and the groups on every other path are unchanged. |
| DrainParser.ReparseIsStable | drain_parser.py:180-184 | Parsing the same line again returns the same template and id and changes neither the tree nor the cache. |
| DrainParser.ParseAllCounts | drain_parser.py:169-219 | After any sequence of parses, total frequency equals the number of parse calls. The catalog grows by at most one row per call. |
| DrainParser.ParseAllValid | drain_parser.py:169-219 | The parser invariant holds after any sequence of parses. |
| DrainParser.ParseAll | drain_parser.py:169-219 | Parsing a sequence keeps the configuration, never drops a cached line, and leaves every parsed line in the cache. |
| DrainParser.StatisticsCountParses | drain_parser.py:271-289 | From an empty catalog, the statistics report as many parsed logs as lines, at most that many templates, and the configured depth and threshold. |
| DrainParser.Statistics | drain_parser.py:271-289 | Every template id is at most the reported template count, and every template's frequency is at most the reported number of parsed logs. In a catalog without repeated patterns, the stored patterns hold exactly the ids 1 to the template count (`COUNT(*)`), and the parsed-log count is the sum of their frequencies (`SUM(frequency)`, 0 when empty). Depth and threshold are the parser's own. |
| DrainParser.StatisticsAfterParses | drain_parser.py:271-289 | From any parser, parsing n more lines raises the reported parsed-log count by exactly n and the template count by at most n. |
| TemplateCatalog.CatalogRows | drain_parser.py:276-280 | With distinct patterns, the sum of the frequency column equals the stored patterns' own frequencies added up, and the row at position n−1 has id n. |
| TemplateCatalog.FrequencySumSuffix | drain_parser.py:279-280 | With distinct patterns, every suffix of the rows sums to the frequencies looked up for its own patterns. |
| StableSort.Order | rag_framework.py:191-194 | The sort order is a permutation of the positions, non-increasing in score, with ties in original order. |
| StableSort.TopK | rag_framework.py:148-150 | Top-k keeps min(k, n) elements in sorted order. Each kept element scores at least as high as any element dropped, and a dropped element that ties a kept one comes later in the input, as in a stable sort. |
| StableSort.OrderCutoff | rag_framework.py:191-194 | A position outside the first n of the sort order scores no higher than each of the first n, and comes after it in the input when they tie. |
| RagRetrieval.SemanticLogs | rag_framework.py:119-150 | Semantic results are exactly min(`top_k`, number of decodable rows among the first 100) entries, tagged `semantic`, each built from a row with an embedding. They are sorted by similarity, and every dropped decodable row scores no higher than any kept one. |
| RagRetrieval.SemanticLogsFrom | rag_framework.py:119-150 | Each semantic result is the entry of a distinct scored row. Results with equal similarity keep row order. A scored row that is left out is no more similar than any result, and comes after it in row order on a tie. |
| RagRetrieval.CandidatesFrom | rag_framework.py:119-146 | Each candidate is the entry of a decodable row among the first 100. The rows are named at strictly increasing positions, so each row gives one candidate in row order, and every decodable row among the first 100 gives a candidate. |
| RagRetrieval.DecodedFrom | rag_framework.py:127-146 | The decoded entries are those of the rows whose embedding decodes, in row order. Rows that fail are skipped, and every row that decodes is listed. |
| RagRetrieval.Keywords | rag_framework.py:157 | Keywords are all-letter words of length at least 3 from the lower-cased query, and every such word is a keyword. |
| RagRetrieval.KeywordsInOrder | rag_framework.py:157 | The keywords are exactly the letter-only words of length at least 3, in query order and with repeats, picked at increasing word positions. |
| RagRetrieval.LetterWords | rag_framework.py:157 | Every all-letter word of length at least 3 is kept, and nothing else is. |
| RagRetrieval.LetterWordsPicks | rag_framework.py:157 | The kept words are the input words at increasing positions, and a position is picked exactly when its word is all letters with length at least 3. |
| RagRetrieval.LetterWordsAppend | rag_framework.py:157 | Filtering a concatenation gives the concatenation of the filtered parts. |
| RagRetrieval.KeywordLogs | rag_framework.py:152-160 | The keyword fallback runs only when both other lists are empty. It is then the concatenation, in keyword order, of the first 5 search results for each of the first 3 keywords. |
| RagRetrieval.SearchEach | rag_framework.py:158-160 | The extended list is the concatenation of the first 5 results per keyword, so it has at most 5 per keyword, each from that keyword's search. |
| RagRetrieval.TemplateMerge | rag_framework.py:165-173 | Each template entry with a truthy id ends up stored with similarity 0.9 and method `template`. Every new key comes from such an entry. |
| RagRetrieval.SemanticMerge | rag_framework.py:175-179 | A semantic entry never lowers an existing score. The stored score is at least each entry's similarity, and an entry that is not strictly better leaves the stored one in place. |
| RagRetrieval.KeywordMerge | rag_framework.py:181-189 | Keyword entries never displace an existing entry. A new entry has a truthy id, similarity 0.5 and method `keyword`. |
| RagRetrieval.Retrieve | rag_framework.py:76-197 | The result has exactly min(`top_k`, merged entries) entries, sorted by non-increasing similarity, with pairwise distinct ids. Each entry comes from the merged map and scores at least as high as every merged entry left out. A merged entry left out that ties a kept one was inserted into the merge after it, as Python's stable `sort` keeps them. |
| RagRetrieval.RetrieveTiesInMergeOrder | rag_framework.py:191-197 | Entries with equal similarity appear in the order they were first inserted into the merge. |
| RagRetrieval.TopCutoffInMergeOrder | rag_framework.py:191-197 | For any merge with distinct ids, an entry not among the `top_k` best that ties one kept was inserted after it. |
| RagRetrieval.DedupDistinct | rag_framework.py:320-327 | De-duplicated context entries have pairwise distinct ids. |
| RagRetrieval.DedupComplete | rag_framework.py:320-327 | Every truthy id that was not already seen appears in the de-duplicated list. |
| RagRetrieval.DedupKeepsFirst | rag_framework.py:320-327 | Each kept entry is the first occurrence of its id. |
| RagRetrieval.DedupCount | rag_framework.py:320-327 | The de-duplicated list has one entry per distinct truthy id. |
| RagRetrieval.DedupInOrder | rag_framework.py:320-327 | The de-duplicated list is a subsequence of the input: its entries appear at increasing input positions. |
| RagRetrieval.RelatedLogs | rag_framework.py:311-318 | Related logs are the concatenation, in incident order, of the retrieval with `top_k` 5 for each of the first 5 incidents, using the incident's log line as query. |
| RagRetrieval.RelatedLogsFrom | rag_framework.py:311-318 | Every related log was retrieved for one of the first 5 incidents. |
| RagRetrieval.ContextLines | rag_framework.py:329-333 | At most 20 context lines are built, exactly 20 when enough entries exist, one per entry in order. |
| RagRetrieval.SummarizeTimeWindow | rag_framework.py:294-361 | With no incidents the answer is the fixed message. Otherwise it is the LLM summary when there is one, or the fallback naming the incident count, the hours and the number of distinct truthy ids among the related logs. |
| AlertRules.ErrorPattern | alert_rule_generator.py:24-41 | A line is classified exactly when it contains `ERROR`. Each class is chosen exactly when its test holds and no earlier test does: port conflict (`Port` with 80 or 443), timeout, connection failed, permission denied, and generic `ERROR` last. |
| AlertRules.Hits | alert_rule_generator.py:24-45 | Each line contributes 0, 1 or 2 distinct counts, and `CRITICAL` is counted exactly when the line contains it. |
| AlertRules.Counts | alert_rule_generator.py:21-45 | Every pattern with a counter has a count of at least 1: counters are only created by an occurrence. |
| AlertRules.BumpAllPositive | alert_rule_generator.py:41-45 | Incrementing counters with `patterns.get(p, 0) + 1` keeps every counter positive. |
| AlertRules.CountsAreOccurrences | alert_rule_generator.py:21-45 | The counter for a pattern is the number of lines that hit it. The counters sum to the total number of hits, and the keys are distinct. |
| AlertRules.CountsKeys | alert_rule_generator.py:21-45 | A pattern has a counter exactly when some line hits it. |
| AlertRules.PatternToRegex | alert_rule_generator.py:53-64 | An unknown pattern maps to itself in parentheses. |
| AlertRules.ClassifiedPatternsHaveFixedRegex | alert_rule_generator.py:53-64 | Every pattern the classifier emits has a fixed regex in the table. |
| AlertRules.Analyze | alert_rule_generator.py:12-51 | Each pattern is listed once, with its exact occurrence count and its regex. The list is ordered by non-increasing frequency with ties in first-seen order, and covers every pattern that occurs. |
| AlertRules.FirstSeenOrder | alert_rule_generator.py:24-48 | Ties are broken in first-seen order: a pattern occurring within the first k incident lines is placed before one that first occurs after them. |
| AlertRules.CountsPlaces | alert_rule_generator.py:24-45 | Processing more incident lines never moves a pattern's place in the counts, and patterns first seen later are placed after all earlier ones. |
| OrderedMap.PutPlaces | alert_rule_generator.py:28 | Assigning `d[k] = v` never shortens the dictionary or moves a present key, and a new key lands after all the old ones. |
| AlertRules.BumpAllPlaces | alert_rule_generator.py:28-45 | Incrementing counters never moves an existing pattern, and a new pattern goes after all the existing ones. |
| AlertRules.AnalyzeTotal | alert_rule_generator.py:21-45 | The frequencies sum to the total number of hits, which is at most twice the number of lines. |
| AlertRules.Threshold | alert_rule_generator.py:116 | The threshold is at least 1. From frequency 3 on, it is the whole number of thirds of the frequency, and below 6 it is 1. |
| AlertRules.Action | alert_rule_generator.py:119-124 | The action is `RESTART_APACHE` exactly when the lower-cased pattern contains `port` or `timeout`, and `ESCALATE` otherwise. |
| AlertRules.CriticalBranchIsDead | alert_rule_generator.py:121 | No upper-cased pattern contains `critical`, so that branch never fires. |
| AlertRules.GenerateBash | alert_rule_generator.py:66-100 | The script contains the `PATTERN=`, `THRESHOLD=` and `ACTION=` lines and the pattern comment for its inputs. |
| AlertRules.Suggest | alert_rule_generator.py:102-135 | Suggestions are the first min(5, n) analysed patterns in order. Each carries the pattern, frequency and regex, the threshold `max(1, frequency // 3)`, the pattern's action and the script built from them. |
| AlertRules.SuggestKeepsMostFrequent | alert_rule_generator.py:108-110 | An occurring pattern is left out only when five suggestions were made, each at least as frequent. |
| McpTools.LoadTools | mcp_tools.py:33-75 | Without a schema file the default three tools are used. A schema's `tools` list is used as given, and a schema without `tools` gives none. |
| McpTools.MakeTool | mcp_tools.py:75-81 | Name and description are copied. Present fields are used as given. Missing fields default to no required parameters (also when `inputSchema` has no `required`), risk `UNKNOWN` and no approval. |
| McpTools.BuildRegistry | mcp_tools.py:74-84 | The registry has at most one tool per definition, and each tool is stored under its own name. |
| McpTools.GetRegistry | mcp_tools.py:66-84 | The registry has distinct names. A name is registered exactly when some loaded definition has it, and each tool is stored under its own name. |
| McpTools.RegistryLookup | mcp_tools.py:74-84 | Looking up a name gives the tool built from its last definition, or nothing when no definition has that name. |
| McpTools.RegistryNames | mcp_tools.py:74-84 | Registry names are distinct and are exactly the defined names. |
| McpTools.RegistryOrder | mcp_tools.py:74-84 | Registry names appear in the order in which they were first defined. |
| McpTools.Description | mcp_tools.py:110-114 | There is a description exactly for a registered tool, and it is that tool's description. |
| McpTools.ListTools | mcp_tools.py:116-119 | The list has one name per registry entry, and a name is listed exactly when it is registered. |
| McpTools.Validate | mcp_tools.py:86-108 | An unknown tool gives `Unknown tool: <name>`. A known tool is valid exactly when every required parameter is present, with missing parameters treated as none. Otherwise the error names the first missing parameter in schema order. |
| McpTools.DefaultRegistryFacts | mcp_tools.py:37-61 | The default registry lists exactly the three tools in order. Only `RESTART_APACHE` needs approval, and every default tool validates with any parameters. |
| ApprovalGate.LoadConfig | approval_gate.py:15-29 | Without a configuration file the built-in defaults apply. |
| ApprovalGate.RequiresApproval | approval_gate.py:31-38 | Approval is required exactly when the action's entry says `requires_approval: true`. |
| ApprovalGate.RiskLevel | approval_gate.py:40-44 | The risk is `UNKNOWN` for an unlisted action or an entry without a level, and the configured level otherwise. |
| ApprovalGate.IsDryRun | approval_gate.py:99-102 | Dry-run mode is off exactly when the configuration sets it to false. |
| ApprovalGate.Prompt | approval_gate.py:86-97 | Input that ends before a yes or a no aborts. Otherwise the first decisive answer decides: yes approves with the approver's name, no rejects. |
| ApprovalGate.RequestApproval | approval_gate.py:46-97 | Dry-run mode rejects everything with `dry_run_mode` before any other check. Otherwise an action that needs no approval is auto-approved, a non-interactive session rejects, and an interactive one prompts. |
| ApprovalGate.ApprovalNeedsYes | approval_gate.py:46-97 | An action that needs approval is approved exactly outside dry-run mode, in an interactive session, when the first decisive answer is a yes. The approver is named from the environment. |
| ApprovalGate.DryRunApprovesNothing | approval_gate.py:55-60 | Nothing is approved in dry-run mode. |
| ApprovalGate.PaddedYesApproves | approval_gate.py:88-89 | Surrounding whitespace and capitals do not matter: ` Yes ` approves. |
| ApprovalGate.DefaultConfigFacts | approval_gate.py:15-29 | The built-in configuration is in dry-run mode. Only `RESTART_APACHE` needs approval, with risk `HIGH`, and unlisted actions have risk `UNKNOWN`. |
| McpServer.RunScript | mcp_server.py:69-100 | One audit event is appended, and the action is recorded exactly when the run succeeded and the incident id is truthy. Exit code 0 logs `executed` with the approver. A non-zero exit logs `failed` with stderr, or `Unknown error` when stderr is empty. A timeout logs `timeout` and any other error logs `error`, each with its message. The event has an error exactly when the call failed. |
| McpServer.DryRunOrRun | mcp_server.py:63-100 | In dry-run mode the call succeeds with the `[DRY RUN]` message and a `dry_run` event, and nothing runs. Otherwise it is exactly the script run, which succeeds exactly when `actions.sh` exits 0, and then reports `executed successfully` and logs `executed`. |
| McpServer.AfterValidation | mcp_server.py:52-100 | `validated` is logged first. The call is interrupted only when the approval prompt aborts. `actions.sh` runs exactly outside dry-run mode and with approval when needed. Once it has run, the call succeeds exactly when it exits 0. |
| McpServer.Approved | mcp_server.py:54-67 | A rejected decision returns the rejection message and logs `rejected`. An approved one logs `approved` and goes on to dry run or execution. An aborted prompt interrupts the pipeline. |
| McpServer.Execute | mcp_server.py:40-100 | A validation failure returns `Validation failed: …` with exactly one `validation_failed` event. Otherwise `validated` is logged first. Every event names the tool and incident. Once `actions.sh` has run, the call succeeds exactly when it exits 0: it then returns `Tool '…' executed successfully` and the last event is `executed`. A record is written exactly after such a run with a truthy incident id. |
| McpServer.ScriptRunsOnlyWhenAllowed | mcp_server.py:46-69 | The script runs exactly when validation passes, dry-run mode is off, and an action that needs approval got a yes in an interactive session. |
| McpServer.DryRunOutcomes | mcp_server.py:55-67 | In dry-run mode nothing runs and nothing is recorded. Approval-requiring tools end rejected, and the others report the dry run as `auto_approved`. |
| McpServer.SuccessMeansRanOrDryRun | mcp_server.py:64-87 | A successful call either ran the script to exit status 0 or stopped in dry-run mode after logging `dry_run`. |
| McpServer.FailureWithoutRunIsRejection | mcp_server.py:54-59 | A validated call that fails without running the script was rejected by the approval gate, and its last audit event is `rejected`. |
| IncidentHandler.ChosenSummary | incident_handler.py:30-40 | The summary is replaced exactly when the retrieval summary is non-empty and differs from it. |
| IncidentHandler.HandleIncident | incident_handler.py:18-55 | The incident is recorded first, then the tool runs through the same pipeline as `execute_mcp_tool`, and the handler's result is that pipeline's result. The exit code is 0 exactly on success and 1 otherwise. The incident is resolved exactly on a success whose message does not mention a dry run. |
| IncidentHandler.DryRunNeverResolves | incident_handler.py:45-48 | In dry-run mode the handler exits without resolving the incident and without running a script. |
| IncidentHandler.SummaryFailureDoesNotBlock | incident_handler.py:30-43 | A failed summarization behaves like an empty one: the action is still called, with the original summary. |
| QueryInterface.ExtractHours | query_interface.py:142-158 | The fixed phrases give 1, 24 and 168, in that priority order. Without a fixed phrase, and without both `last` and `hour`, the hours stay 1. |
| QueryInterface.ExtractedNumber | query_interface.py:150-158 | When no fixed phrase applies and every conversion succeeds, the hours are the number after the last `last`. |
| QueryInterface.FailedNumberMeansOneHour | query_interface.py:150-158 | A failed conversion resets the hours to 1 unless a fixed phrase applies. |
| QueryInterface.NoNumberMeansOneHour | query_interface.py:150-158 | When no `last` is followed by another word, the hours stay 1 unless a fixed phrase applies. |
| QueryInterface.RouteOf | query_interface.py:160-187 | Routing follows the fixed priority: summarize with error, suspicious with auth, should with restart, open with incident. The service is `nginx` exactly when the query mentions it, else `apache`. |
| QueryInterface.UnrelatedQueryNotRecognized | query_interface.py:185-187 | A query with none of the routing words is not recognized. |
| QueryInterface.ShouldRestartService | query_interface.py:68-130 | With no errors the answer is `NO`, or with an LLM reply `NO` exactly when the reply mentions no or not and `CHECK` otherwise. With errors and an LLM reply the answer is `YES` exactly on `restart` or a `RESTART` action. Without a reply it is `YES` exactly for at least 3 errors. |
| QueryInterface.NotIsRedundant | query_interface.py:83 | With no errors and an LLM reply, the answer is `NO` exactly when the lower-cased reply contains `no`. |
| QueryInterface.SummarizeErrorsMentions | query_interface.py:21-58 | The error summary always quotes the LLM summary when there is one, and states the error count whenever there are errors. |
| QueryInterface.SummarizeErrorsAnswer | query_interface.py:21-58 | All four cases give their fixed texts. No errors and no LLM reply gives the "operating normally" message. No errors with a reply gives `LLM Analysis (last H hour(s)):` with the summary and the no-errors note. Errors with a reply give the summary headed by the error count. Errors without a reply give the count and the first 500 characters of the joined lines. |
| QueryInterface.EmptyAnswers | query_interface.py:164-183 | The "nothing found" answers are given exactly when the event or incident list is empty. |
| QueryInterface.SuspiciousAnswer | query_interface.py:164-169 | No events gives the fixed message. Otherwise the answer is the event count, then the first five events, each cut to 200 characters, one per line. |
| QueryInterface.OpenIncidentsAnswer | query_interface.py:178-183 | No incidents gives `No open incidents.`. Otherwise the answer is the count, then `ID <id>: <line[:100]>` for the first ten incidents, one per line. |
| QueryInterface.RestartAnswer | query_interface.py:171-176 | The answer splits at line breaks back into `Recommendation: …`, `Reason: …` and `Errors found: <count>` whenever the recommendation and the reason hold no line break. |
| QueryInterface.SuspiciousAnswerLists | query_interface.py:164-169 | Each of the first five auth events, cut to 200 characters, appears in the suspicious-auth answer. |
| QueryInterface.OpenIncidentsAnswerLists | query_interface.py:178-183 | Each of the first ten open incidents appears in the answer as `ID <id>: <first 100 characters>`. |
| QueryInterface.ListingAnswersCount | query_interface.py:164-183 | A non-empty listing answer states how many events or incidents the backend returned. |
| QueryInterface.InteractiveQuery | query_interface.py:132-187 | An unrecognized query gets the fixed help message. A restart query answers for the routed service. An error summary and a suspicious-auth query use the extracted hours, and an open-incidents query lists the open incidents. |
| Evaluation.FlaggedOnlyByUpperKeywords | evaluation.py:51-54 | A line is flagged exactly when its upper-case form contains `ERROR` or `CRITICAL`. |
| Evaluation.TimeoutAloneNotFlagged | evaluation.py:51-54 | A line with neither `ERROR` nor `CRITICAL` is not flagged, whatever timeout or failure words it holds. |
| Evaluation.Percent | evaluation.py:69-71 | A percentage is 0 for an empty total, is part/total·100 otherwise, and lies in [0, 100] when part ≤ total. |
| Evaluation.EvaluateAnomalyDetection | evaluation.py:39-81 | Detected equals total anomalies, with no false positives or negatives. Accuracy equals recall, all rates are 0 with no anomalies, and accuracy and precision are 100 otherwise. |
| Evaluation.DatasetCountsBalance | evaluation.py:188-222 | Detected plus false negatives equals the true anomalies, false positives are at most the normal lines, and true anomalies are at most the total. |
| Evaluation.CountDataset | evaluation.py:188-222 | One count per entry. The true anomalies are the entries labelled 1. Detected counts the labelled anomalies the detector flags, false negatives the labelled anomalies it misses, and false positives the other entries it flags. Detected plus false positives are exactly the flagged lines. |
| Evaluation.TallySnoc | evaluation.py:213-222 | Counting one more entry at the end adds 1 exactly when its label and detector verdict match the counted combination. |
| Evaluation.AnomaliesSnoc | evaluation.py:190 | Counting one more entry at the end adds 1 exactly when it is labelled an anomaly. |
| Evaluation.Scores | evaluation.py:240-248 | Precision is 0 with nothing flagged, and otherwise satisfies precision·(detected+false positives) = 100·detected. Recall is 0 with no anomalies, and otherwise satisfies recall·true anomalies = 100·detected. F1 is 0 when precision plus recall is 0, and otherwise satisfies F1·(P+R) = 2·P·R. |
| Evaluation.F1 | evaluation.py:246-248 | F1 is 0 when precision plus recall is 0, and is their harmonic mean otherwise. |
| Evaluation.ScoresInRange | evaluation.py:240-248 | Precision, recall and F1 all lie in [0, 100] for every dataset. |
| Evaluation.SummaryQuality | evaluation.py:298-341 | An empty list gives all zeros. Coverage and informativeness lie in [0, 100], and informativeness is the capped sum of the average length and half the coverage. |
| Evaluation.SummaryQualityMeans | evaluation.py:330-331 | The average length is the mean summary length, and coverage is the percentage of summaries sharing a keyword with their line. |

## Left out

- SQLite: every query result (incidents, logs, errors, template rows) is a given list, and the template table is an in-memory ordered map.
- TemplateCatalog.GetOrCreate: the database error path that returns id 0 (`drain_parser.py:262-265`) is not modelled.
- Embeddings, cosine similarity and the sentence-transformer model: each semantic row arrives with its similarity as an exact real, or none when its embedding is empty or fails to decode. Such rows are skipped after the 100-row limit, as in the code. Without an embedder the row list is empty.
- `get_logs_by_template_id`: the model assumes a database that provides it. The template-correlated log list is an input.
- RagRetrieval.Retrieve: `top_k` is a natural number, so Python's slicing with a negative `top_k` is not modelled.
- `summarize_incident` and the module-level `parse_log_entry` helper: they are thin wrappers around database reads, the LLM and a global parser.
- LLM calls (`llm_api_caller.py`): each reply is an optional parameter, `None` standing for failure or no `summary` key.
- Subprocess execution: the outcome of `actions.sh` is a parameter (an exit with code and output, a timeout, or another error).
- McpServer.Execute: audit log file writes and their timestamps are left out. The audit trail is returned as a sequence of events. Exceptions raised by `record_action` are not modelled.
- McpTools.MakeTool: JSON `null` and Python truthiness of `requires_approval` are not modelled; a present field is taken as a typed value.
- McpTools.BuildRegistry: a tool definition without `name` or `description` raises `KeyError` (`mcp_tools.py:76-77`); the model's definitions always carry both.
- ApprovalGate.IsDryRun: JSON `null` and Python truthiness of `dry_run_mode` and `requires_approval` are not modelled; the configuration holds booleans.
- `get_available_tools_info` and the `summary` argument passed to `request_approval`: they only affect printed output.
- Printing, `isatty`, environment variables and `input()` become parameters: an interactive flag, an environment record and a finite response sequence. Running out of responses (EOF) is the `Aborted` outcome, and the handler reports it as `Interrupted`.
- QueryInterface.ExtractHours: Python `int()` is approximated by an optional sign followed by ASCII digits. Whitespace, underscores and non-ASCII digits are not accepted.
- Unicode: `split`, `lower`, `upper` and the regex classes are ASCII approximations.
- QueryInterface.InteractiveQuery: the database and LLM collaborators are fields of a `Backend` record of given answers.
- Evaluation.EvaluateAnomalyDetection: percentages are exact reals, and `round(…, 2)` is not applied.
- Evaluation.SummaryQuality: averages and percentages are exact reals before rounding. The unused `ground_truth` argument is dropped.
- Latency measurement, `evaluate_summarization_quality`, `evaluate_action_usefulness` and `metrics.py`: they are timing, fixed demo data and database aggregates.
- Log ingestion (`log_ingestion.py`), dataset loading, the CLI and report printing: they are I/O and threads.
- DrainSimilarity.Similarity: the ratio is an exact real, not a float.
