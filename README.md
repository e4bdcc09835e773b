# agentic-demo core, modelled in Dafny

This project models the deterministic core of `agentic-demo`. The system has
a lecture-generation pipeline of agents, a web backend and a live-document UI.
The model covers the text and data transformations, and the small stateful
records, that sit between the language-model, network and database calls:

- the token diff that animates live document updates, and the workspace store
  that the UI's event stream feeds;
- the retry policies and the section regenerator;
- the research-result deduplication, the domain-authority ranking and the
  allowlist filter;
- the Markdown and HTML exporters;
- the toy orchestration graph and the conversation graph;
- the `State` record, the entry list, the metrics buffer and the threshold
  alerts;
- the offline-cache file names and the two outline parsers of the `app`
  package;
- the planner's outline extraction, the fact checker's sentence and line
  scans, and the pedagogy critic's Bloom coverage, activity diversity and
  cognitive load.

Each source file has one module of its own. The shared modules are:

- `Wrappers`: Option and Result.
- `Text`: Python and JavaScript string primitives (whitespace classes, strip,
  ASCII lower-casing, `splitlines`, `join`, `html.escape`, integer printing).
- `Seqs`: order-preserving filters.
- `Dedup`: first-occurrence deduplication by a key.
- `AgentModels` and `Reports`: the records of `src/agents/models.py` and
  `src/models/`.
- `CitationPattern`: the fact checker's citation regular expression.

The form of each module follows its source:

- Objects whose fields change in place are classes with `modifies` clauses:
  the workspace store, the `State` record, the entry list, the metrics
  collector and the toy graph state.
- Loops are methods with invariants. Each is proved equal to a specification
  function, or to explicit new state.
- Expressions are functions.
- What the source promises is proved as lemmas about those functions.

Foreign pieces are parameters of the model:

- `urllib.parse.urlparse`;
- JSON and schema validation;
- language-model replies and the injected Bloom classifier;
- HTTP `HEAD` results and the webhook post;
- clock timestamps;
- the metrics repository and the settings' allowlist.

## Model

| member | source | states |
|---|---|---|
| DiffUtils.RunLen | frontend/src/utils/diffUtils.ts:23 | the length of the longest prefix made only of whitespace (or only of non-whitespace) characters: every character before it is of that kind, and the next is not |
| DiffUtils.TokenizeRuns | frontend/src/utils/diffUtils.ts:22-24 | the tokens concatenate back to the text exactly; each token is non-empty and wholly whitespace or wholly non-whitespace; adjacent tokens alternate kind |
| DiffUtils.RunsUnique | frontend/src/utils/diffUtils.ts:22-24 | a text has only one cutting into alternating maximal runs, so the tokenizer's output is determined by the properties above |
| DiffUtils.FirstRun | frontend/src/utils/diffUtils.ts:23 | the first token is the longest prefix of the first character's kind, and the remaining tokens cut the rest |
| DiffUtils.TokenizeStep | frontend/src/utils/diffUtils.ts:23 | the split on `(\s+)` peels a (possibly empty) word and the whitespace run after it, and the filter drops the empty word |
| DiffUtils.TokenizeHelloWorld | frontend/src/utils/diffUtils.ts:22-24 | "hello world" becomes "hello", " ", "world" |
| DiffUtils.TwoWords | frontend/src/utils/diffUtils.ts:22-24 | two whitespace-free words joined by one space become the first word, the space and the second word |
| DiffUtils.LcsTable | frontend/src/utils/diffUtils.ts:41-51 | the nested descending loops fill every cell `dp[i][j]` with the LCS length of the token suffixes from `i` and `j` |
| DiffUtils.FillRow | frontend/src/utils/diffUtils.ts:45-50 | the inner loop fills row `i` from row `i + 1` and leaves every other row unchanged |
| DiffUtils.FillCell | frontend/src/utils/diffUtils.ts:46-49 | one cell from its neighbours: the diagonal plus one on equal tokens, else the larger of the lower and right cells; no other cell changes |
| DiffUtils.LcsAt | frontend/src/utils/diffUtils.ts:46-49 | the LCS length satisfies the table's recurrence at every cell |
| DiffUtils.Walk | frontend/src/utils/diffUtils.ts:54-77 | the cursor walk over a filled table produces exactly the patch sequence `Diff` of the two token sequences |
| DiffUtils.WalkBoth | frontend/src/utils/diffUtils.ts:57-69 | the first loop stops when either cursor reaches its end, and the patches so far followed by `Diff` of the rests give the whole diff |
| DiffUtils.FlushOld | frontend/src/utils/diffUtils.ts:70-73 | the second loop deletes the old tokens left over |
| DiffUtils.FlushNew | frontend/src/utils/diffUtils.ts:74-77 | the third loop inserts the new tokens left over |
| DiffUtils.WalkStep | frontend/src/utils/diffUtils.ts:58-68 | each walk step emits `equal` on equal tokens, `delete` when `dp[i+1][j] >= dp[i][j+1]` (or the new side is used up), `insert` otherwise |
| DiffUtils.DiffAt | frontend/src/utils/diffUtils.ts:57-77 | the patches emitted from cursors `i`, `j` follow the same three-way rule as the walk |
| DiffUtils.ComputeDiff | frontend/src/utils/diffUtils.ts:34-79 | `computeDiff` equals `Diff` of the two tokenizations; the `equal` and `delete` tokens reproduce the old tokens, the `equal` and `insert` tokens the new ones, and the number of `equal` patches is the LCS length |
| DiffUtils.DiffOldSide | frontend/src/utils/diffUtils.ts:54-77 | the `equal` and `delete` tokens, in order, are the old tokens |
| DiffUtils.DiffNewSide | frontend/src/utils/diffUtils.ts:54-77 | the `equal` and `insert` tokens, in order, are the new tokens |
| DiffUtils.DiffEqualCount | frontend/src/utils/diffUtils.ts:27-61 | the number of `equal` patches is `dp[0][0]`, the LCS length |
| DiffUtils.LcsUpperBound | frontend/src/utils/diffUtils.ts:27-28 | every common subsequence of the two token sequences is at most the table's value long |
| DiffUtils.EqualTokensCommon | frontend/src/utils/diffUtils.ts:57-61 | the `equal` tokens of any patch sequence are a subsequence of both of its sides |
| DiffUtils.LcsIsLongest | frontend/src/utils/diffUtils.ts:27-51 | the `equal` tokens form a common subsequence of the LCS length, and no common subsequence is longer, so the diff is minimal |
| DiffUtils.LcsMonotone | frontend/src/utils/diffUtils.ts:46-49 | dropping a token from either side never lengthens the LCS |
| DiffUtils.PatchCount | frontend/src/utils/diffUtils.ts:54-77 | every patch takes a token from the old side, the new side or both, so the count is old + new − equal |
| DiffUtils.DiffLength | frontend/src/utils/diffUtils.ts:54-77 | the number of patches is m + n − LCS |
| DiffUtils.DeletesBeforeInserts | frontend/src/utils/diffUtils.ts:62-67 | the tie-break prefers `delete`: an `insert` is never directly followed by a `delete` |
| DiffUtils.InsertNotFollowedByDelete | frontend/src/utils/diffUtils.ts:62-67 | when the walk inserts at differing tokens, the next patch is not a `delete` |
| DiffUtils.DiffSame | frontend/src/utils/diffUtils.ts:57-61 | diffing a text against itself gives one `equal` patch per token |
| DiffUtils.DiffFromEmpty | frontend/src/utils/diffUtils.ts:74-77 | an empty old text gives one `insert` per new token |
| DiffUtils.DiffToEmpty | frontend/src/utils/diffUtils.ts:70-73 | an empty new text gives one `delete` per old token |
| DiffUtils.InsertedWordExample | tests/diffUtils.test.ts:4-24 | the diff of the tokens of "hello world" and "hello brave world" is equal, equal, insert, insert, equal, and the reverse gives the two deletes |
| DiffUtils.InsertedWordTokens | tests/diffUtils.test.ts:4-24 | the same diffs on the token lists |
| DiffUtils.TokenizeHelloBraveWorld | frontend/src/utils/diffUtils.ts:22-24 | "hello brave world" becomes "hello", " ", "brave", " ", "world" |
| DiffUtils.ThreeWords | frontend/src/utils/diffUtils.ts:22-24 | three words between single spaces are the words and the two spaces |
| WorkspaceStore.Store.constructor | frontend/src/store/useWorkspaceStore.ts:20-24 | the initial store: document `null`, no logs, no sources, export status "idle" |
| WorkspaceStore.Store.UpdateState | frontend/src/store/useWorkspaceStore.ts:36-53 | the new store is the transition `Step` of the old one; only a `log` event changes the logs, by appending the event; an unknown type changes nothing |
| WorkspaceStore.Store.OnMessage | frontend/src/store/useWorkspaceStore.ts:27-33 | a message whose data does not parse leaves the store unchanged; a parsed one goes through `updateState` |
| WorkspaceStore.DocumentReplaces | frontend/src/store/useWorkspaceStore.ts:38-40 | a `document` event sets the document to the payload and leaves the other three fields unchanged |
| WorkspaceStore.LogAppends | frontend/src/store/useWorkspaceStore.ts:41-43 | a `log` event appends the whole event: one more log, the old ones kept as a prefix, nothing else changed |
| WorkspaceStore.SourceReplaces | frontend/src/store/useWorkspaceStore.ts:44-46 | a `source` event replaces the sources by the payload when it is an array and by `[]` otherwise; nothing else changes |
| WorkspaceStore.ExportStringifies | frontend/src/store/useWorkspaceStore.ts:47-49 | an `export` event sets the status to `String(payload)` (a string payload itself, `null` as "null") and changes nothing else |
| WorkspaceStore.UnknownIgnored | frontend/src/store/useWorkspaceStore.ts:50-51 | any other event type, `status` included, leaves every field unchanged |
| WorkspaceStore.LogEventsAppend | frontend/src/store/useWorkspaceStore.ts:41-43 | one more event extends the log-typed subsequence by that event exactly when it is a `log` |
| WorkspaceStore.LogsAreLogEvents | frontend/src/store/useWorkspaceStore.ts:20-53 | after any event sequence from the initial store, the logs are the `log`-typed events in arrival order |
| Policies.Track | src/core/policies.py:97-116 | the tracker fails exactly when the stored count (absent = 0) is at least 3, and then changes nothing; otherwise it stores and returns count + 1; no other agent's count changes |
| Policies.RetryTracker | src/core/policies.py:97-116 | `retry_tracker` on the mutable state: its result and the new retry map are `Track` of the old map |
| Policies.TrackKeepsLimit | src/core/policies.py:111-116 | counts that never exceed 3 still never exceed 3 after a call |
| Policies.ThreeThenRaise | tests/core/test_policies.py:115-122 | from an empty map three calls return 1, 2, 3, the fourth raises, and the count stays 3 |
| Policies.Gate | src/core/policies.py:38-69 | a policy returns true exactly when it should retry and the tracker allows it, false exactly when it should not retry, and raises when the tracker does; the tracker is touched only on a retry |
| Policies.PolicyRetryOnLowConfidence | src/core/policies.py:14-41 | retries exactly when the confidence is below the threshold, consulting the tracker only then |
| Policies.PolicyRetryOnCriticFailure | src/core/policies.py:44-69 | retries exactly when the report lists issues, counting the Content-Weaver's retry only then |
| Policies.LowConfidenceExamples | tests/core/test_policies.py:65-81 | confidence 0.5 retries and 0.9 does not, leaving the counts alone; three low-confidence calls succeed and the fourth raises |
| Policies.NoIssuesNoRetry | tests/core/test_policies.py:84-89 | a report without issues returns false and leaves the retry counts unchanged |
| Policies.Cite | src/core/policies.py:93 | one citation per result, carrying its URL |
| Policies.MergeResearchResults | src/core/policies.py:72-94 | the loop with its `seen` set returns, as citations, the first result of each merge key in first-occurrence order |
| Policies.MergeStep | src/core/policies.py:87-93 | one more result adds its key to the seen set and is cited exactly when its key is new |
| Policies.MergeProperties | src/core/policies.py:85-94 | no more citations than results; each cites the URL of a result whose key occurs there first; no key repeats; no key is lost |
| Policies.MergeKeyExamples | src/core/policies.py:89 | "https://a.com" and "https://a.com/" share the key "a.com"; "https://b.com" has "b.com" |
| Policies.MergeExample | tests/core/test_policies.py:103-112 | merging a.com, a.com/ and b.com cites "https://a.com" and "https://b.com" |
| Dedup.KeySet | src/core/policies.py:85-92 | the set of keys seen holds exactly the keys of the items |
| Dedup.DedupByStep | src/core/policies.py:87-93 | the first-occurrence selection grows by one item exactly when the item's key was not seen before |
| Dedup.DedupByProperties | src/core/policies.py:85-94 | the selection is a subsequence of the input, no longer than it, with distinct keys, every key of the input, and each item the first with its key |
| Dedup.DedupFirst | src/web/researcher_web.py:74-81 | every kept item is the first item of the input with its key |
| Dedup.DedupKeys | src/agentic_demo/orchestration/graph.py:55-62 | the kept keys are distinct and are all the keys of the input |
| WebResearcher.CanonicalIgnoresCase | src/web/researcher_web.py:43-48 | URLs whose host and path agree up to case have the same canonical form |
| WebResearcher.CanonicalCaseAndSlash | tests/test_researcher_web.py:14-34 | "https://Example.com/path" and "http://example.com/path/" have the same canonical form |
| WebResearcher.CanonicalWww | tests/test_researcher_web.py:38-47 | "https://www.example.com/" and "http://example.com" both have the canonical form "example.com" |
| WebResearcher.CanonicalHost | src/web/researcher_web.py:44-48 | a lowercase host, with or without a leading "www.", and a path of slashes only have the host as their canonical form |
| WebResearcher.Successes | src/web/researcher_web.py:75-77 | the successful results in order, never more than the responses |
| WebResearcher.SuccessesSound | src/web/researcher_web.py:76-77 | every successful result is one of the responses |
| WebResearcher.SuccessesComplete | src/web/researcher_web.py:75-77 | every successful response appears among the successes |
| WebResearcher.ResearcherWeb | src/web/researcher_web.py:74-81 | the dict loop returns the first successful result per canonical URL in first-occurrence order; failed fetches are omitted; every result is a successful response; canonical URLs are distinct; every successful response's canonical URL is represented |
| WebResearcher.Keep | src/web/researcher_web.py:78-80 | a result is stored under its key only when the key is not already in the dict |
| WebResearcher.TracksValues | src/web/researcher_web.py:81 | the dict's values in insertion order are the first-occurrence selection of the successes |
| WebResearcher.ResearcherWebProperties | src/web/researcher_web.py:74-81 | the selection keeps only successful responses, has distinct keys and loses no key |
| WebResearcher.FirstPerPageExample | tests/test_researcher_web.py:14-34 | of two spellings of one page the first is kept, and the other page is kept after it |
| WebResearcher.FailureSkippedExample | tests/test_researcher_web.py:38-47 | a fetch that raised is skipped and the successful one is returned |
| Regenerator.StrLessIrreflexive | src/core/regenerator.py:33 | no string comes before itself in Python's string order |
| Regenerator.StrLessTransitive | src/core/regenerator.py:33 | the string order is transitive |
| Regenerator.StrLessTotal | src/core/regenerator.py:33 | of two different strings one comes first |
| Regenerator.Insert | src/core/regenerator.py:31-33 | inserting into the sorted set adds exactly the new element |
| Regenerator.InsertSorted | src/core/regenerator.py:33 | insertion keeps a strictly sorted list strictly sorted |
| Regenerator.SortedSet | src/core/regenerator.py:31-33 | `sorted(set(...))` holds exactly the elements of its input |
| Regenerator.SortedSetSorted | src/core/regenerator.py:33 | `sorted(set(...))` is strictly sorted, so each element occurs once |
| Regenerator.SortedUnique | src/core/regenerator.py:33 | two strictly sorted lists with the same elements are equal, so the result is determined by its elements |
| Regenerator.LineIds | src/core/regenerator.py:31-32 | one id per hallucination and per unsupported claim |
| Regenerator.FactSectionsSorted | src/core/regenerator.py:31-33 | a fact-check report yields a strictly sorted list holding exactly the line numbers of its hallucinations and unsupported claims, as strings |
| Regenerator.StringOrderExample | src/core/regenerator.py:33 | "10" sorts before "2", and `sorted(set(["2", "10", "2"]))` is ["10", "2"] |
| Regenerator.SectionsExample | tests/core/test_regeneration.py:19-29 | a critique yields its overloaded segment "A", and a report flagging lines 1 and 2 yields ["1", "2"] |
| Regenerator.HasExceededMaxRetries | src/core/regenerator.py:41-43 | true exactly when the section's counter, 0 when absent, is at least 3 |
| Regenerator.Incremented | src/core/regenerator.py:36-38 | the section's counter, 0 when absent, goes up by one; no other counter changes; the section becomes a key |
| Regenerator.IncrementRetryCount | src/core/regenerator.py:36-38 | the state's counters become the incremented counters |
| Regenerator.SelectStep | src/core/regenerator.py:70-74 | one more section is skipped when its counter is at the limit, otherwise counted and appended |
| Regenerator.SelectSections | src/core/regenerator.py:68-74 | the loop returns the chosen sections and leaves the state's counters as the selection function says |
| Regenerator.SelectProperties | src/core/regenerator.py:70-74 | counters within the limit stay within it; the chosen sections keep their order; counters of other sections are untouched |
| Regenerator.SelectDistinct | src/core/regenerator.py:70-74 | with distinct sections, a section is chosen exactly when its counter is below 3, and then its counter grows by one, otherwise it stays |
| Regenerator.SelectUntouched | src/core/regenerator.py:70-74 | a section not asked for is neither chosen nor counted |
| Regenerator.SelectChosenFrom | src/core/regenerator.py:70-74 | only sections asked for are chosen |
| Regenerator.InvokesAndCounts | tests/core/test_regeneration.py:32-48 | sections "1" and "2" on fresh counters are both regenerated and both counters end at 1 |
| Regenerator.FourRounds | tests/core/test_regeneration.py:51-68 | four rounds on one section regenerate it three times, the fourth chooses nothing, and the counter ends at 3 |
| Regenerator.ParsedIds | src/core/regenerator.py:48-53 | never more ids than sections |
| Regenerator.ApplyRegeneration | src/core/regenerator.py:46-53 | the loop yields, in order, the integer value of every section id that `int` accepts, skipping the rest |
| Regenerator.NatDigits | src/core/regenerator.py:50 | the decimal form of a number is a digit literal whose value is the number |
| Regenerator.ParseIntToString | src/core/regenerator.py:31-50 | `int(str(n))` is `n` for a line number `n` |
| Regenerator.ParseDigits | src/core/regenerator.py:50 | an unsigned digit literal parses to its value |
| Regenerator.ParsedIdsFilter | src/core/regenerator.py:48-53 | the ids are exactly the values of the sections that parse, one each, in order |
| Regenerator.ParsedLineNumbers | src/core/regenerator.py:31-53 | line numbers turned into section ids come back as the same numbers in the same order |
| Regenerator.ParsedIdsExample | src/core/regenerator.py:49-52 | the critic's segment "A" is not an integer and is skipped |
| Regenerator.OrchestrateRegeneration | src/core/regenerator.py:68-78 | the state's counters end as the selection says; the tail runs exactly when some section was chosen; the weaver gets the parsed ids of the chosen sections |
| MarkdownExport.BulletLines | src/export/markdown.py:41-42 | one "- " line per item, in order |
| MarkdownExport.Section | src/export/markdown.py:16-44 | empty exactly when the content is missing, an empty string or an empty list; a text is its heading, the text and a blank line |
| MarkdownExport.SectionShape | src/export/markdown.py:37-44 | a section is its heading and its text or bullets, each on its own line, followed by a blank line |
| MarkdownExport.SectionTextExample | src/export/markdown.py:34-39 | a text section starts with the heading line and the text; a missing content renders as nothing |
| MarkdownExport.SectionListExample | src/export/markdown.py:37-44 | two items become two bullet lines under the heading |
| MarkdownExport.RenderSection | src/export/markdown.py:16-44 | the method building the line list returns the section |
| MarkdownExport.Footnotes | src/export/markdown.py:59-63 | one footnote per citation, numbered from 1 in citation order |
| MarkdownExport.Embedded | src/export/markdown.py:47-65 | without citations the text is unchanged; otherwise it is extended after a newline and ends with a newline |
| MarkdownExport.EmbeddedShape | src/export/markdown.py:65 | with citations the result is the text, a newline, and one line per footnote |
| MarkdownExport.FootnoteExamples | tests/export/test_markdown.py:61-74 | a footnote carries number, title, URL and retrieval date, and the licence after a dash only when there is one |
| MarkdownExport.EmbedCitations | src/export/markdown.py:47-65 | the loop returns the embedded text |
| MarkdownExport.RenderActivities | src/export/markdown.py:68-77 | one line per activity, in order, with its objectives only when it has some |
| MarkdownExport.RenderAssessment | src/export/markdown.py:80-89 | one line per item, in order, with its maximum score when one is given |
| MarkdownExport.RenderSlides | src/export/markdown.py:92-98 | the slides' sections, one after another |
| MarkdownExport.SlidesWithoutBullets | src/export/markdown.py:92-98 | slides without bullets render as nothing |
| MarkdownExport.FieldLine | src/export/markdown.py:121-126 | a front-matter field is a line of its own when set and absent otherwise |
| MarkdownExport.TagsLine | src/export/markdown.py:127-129 | tags, when present, are one bracketed, comma-separated line |
| MarkdownExport.FrontMatterClose | src/export/markdown.py:130-132 | the front matter is its lines joined by newlines, closed by "---" and a newline |
| MarkdownExport.FrontMatterShape | src/export/markdown.py:120-129 | the front matter opens with "---" and the title and has one line per set field, in the order author, date, version, tags |
| MarkdownExport.ReferenceItems | src/export/markdown.py:158-163 | with citations, one linked item per citation with its title and URL verbatim and its footnote marker numbered from 1; without, one linked item per reference (the corrected reading of line 159) |
| MarkdownExport.CollapsePercents | src/export/markdown.py:159 | the `%`-formatting of a reference line: text without `%` is unchanged, and only `%%` is accepted, becoming `%` |
| MarkdownExport.CollapseEscape | src/export/markdown.py:159 | formatting undoes the doubling of every `%` |
| MarkdownExport.CollapsePair | src/export/markdown.py:159 | a leading `%%` formats as one `%` in front of the formatted rest |
| MarkdownExport.CollapseChar | src/export/markdown.py:159 | a leading character other than `%` stays in front of the formatted rest |
| MarkdownExport.CollapsePlainPrefix | src/export/markdown.py:159 | text without `%` passes through formatting in front of whatever follows |
| MarkdownExport.LonePercent | src/export/markdown.py:159 | a `%` followed by anything but `%` makes the formatting fail |
| MarkdownExport.FormatCitedReference | src/export/markdown.py:159 | the line of one citation as written: the title and URL pasted in and then `%`-formatted with the footnote number; without `%` in them it is the intended line |
| MarkdownExport.FormatCitations | src/export/markdown.py:159 | the citation lines as written, one per citation when none fails |
| MarkdownExport.ReferenceItemsAsWritten | src/export/markdown.py:158-163 | the reference list as written; without citations it is the corrected list |
| MarkdownExport.FormatCitationsPlain | src/export/markdown.py:159 | without `%` in any title or URL every citation line formats, numbered from the first number |
| MarkdownExport.AsWrittenAgreesWithoutPercent | src/export/markdown.py:158-163 | without `%` in any title or URL the list as written is the corrected list |
| MarkdownExport.LonePercentLine | src/export/markdown.py:159 | a reference line with a lone `%` fails to format |
| MarkdownExport.EncodedUrlFails | src/export/markdown.py:159 | a citation URL with the percent-encoding `%20` fails to format |
| MarkdownExport.PercentTitleFails | src/export/markdown.py:159 | a citation titled "50%off" fails, its `%o` spending the footnote number |
| MarkdownExport.DoublePercentLine | src/export/markdown.py:159 | a reference line with one `%%` pair formats with a single `%` |
| MarkdownExport.DoublePercentCollapses | src/export/markdown.py:159 | a citation titled "100%%" comes out titled "100%" |
| MarkdownExport.BodyShape | src/export/markdown.py:132-165 | the body starts with the front matter and ends with exactly one newline |
| MarkdownExport.Document | src/export/markdown.py:165-166 | the document starts with the body and is the body when there are no citations |
| MarkdownExport.DocumentFootnotes | src/export/markdown.py:166 | with citations the document is the body, a newline and the footnote lines |
| MarkdownExport.RenderFrontMatter | src/export/markdown.py:120-130 | the method returns the front matter |
| MarkdownExport.RenderPlan | src/export/markdown.py:134-145 | the summary, objectives, prerequisites and activities parts, each only when set (objectives always) |
| MarkdownExport.RenderMaterials | src/export/markdown.py:147-156 | the slides, speaker notes and assessment parts, each only when set |
| MarkdownExport.RenderReferences | src/export/markdown.py:158-163 | the references part, from the citations when there are any, else from the weave's references |
| MarkdownExport.FromWeaveResult | src/export/markdown.py:101-166 | the method returns the document |
| PdfExport.LineElements | src/export/pdf_exporter.py:49-68 | a list is open after a line exactly when the line is a bullet |
| PdfExport.ConvertMarkdownToHtml | src/export/pdf_exporter.py:37-72 | the loop with its `in_list` flag returns the HTML of the elements of the text |
| PdfExport.ConvertLine | src/export/pdf_exporter.py:50-68 | one line adds the HTML of its elements and sets the flag as the line says |
| PdfExport.NestAppend | src/export/pdf_exporter.py:48-70 | reading two runs of elements one after the other for proper nesting is reading their concatenation |
| PdfExport.LineNests | src/export/pdf_exporter.py:50-68 | from the flag's state, a line's elements are properly nested and leave a list open exactly when the new flag says so |
| PdfExport.ScanNests | src/export/pdf_exporter.py:48-68 | after any lines, the elements are properly nested and the list flag says whether one is open |
| PdfExport.ListsBalanced | src/export/pdf_exporter.py:46-72 | the output is properly nested: no `<ul>` inside a list, every `</ul>` closes an open one, every item is inside a list, headings and paragraphs are outside, and no list is left open |
| PdfExport.CountItemsAppend | src/export/pdf_exporter.py:59 | list items of two element runs add up |
| PdfExport.ScanCountsItems | src/export/pdf_exporter.py:55-59 | the loop emits one list item per bullet line |
| PdfExport.ItemPerBullet | src/export/pdf_exporter.py:46-72 | the output has exactly one list item per "- " line of the text that is not a heading |
| PdfExport.HeadingExample | tests/test_pdf_exporter.py:56-60 | a "## " line becomes an `<h2>` element inside the document skeleton |
| PdfExport.HeadingLine | src/export/pdf_exporter.py:50-54 | a single heading line yields one heading element with the text after "## " |
| PdfExport.EscapePlain | src/export/pdf_exporter.py:54 | escaping leaves letters and spaces unchanged |
| PdfExport.FindFrom | src/export/pdf_exporter.py:83 | the index found is an occurrence at or after the start, and none comes earlier |
| PdfExport.ApplyCss | src/export/pdf_exporter.py:74-82 | without a style sheet path, or when reading it raises an `OSError`, the HTML is unchanged |
| PdfExport.CssInHead | tests/test_pdf_exporter.py:63-68 | a document with an empty head gets the style sheet as its head |
| PdfExport.CssAfterHeadTag | src/export/pdf_exporter.py:83 | the style sheet is inserted right before the first `</head>` |
| PdfExport.ReplaceFirstAt | src/export/pdf_exporter.py:83 | `replace(..., 1)` replaces the first occurrence and keeps the rest |
| OrchestrationGraph.GraphState.constructor | src/agentic_demo/orchestration/graph.py:21-136 | a state holds exactly the given values |
| OrchestrationGraph.NamesDistinct | src/agentic_demo/orchestration/graph.py:147-152 | the six nodes are registered under six different names |
| OrchestrationGraph.PlannerStep | src/agentic_demo/orchestration/graph.py:21-35 | the planner logs itself, raises the confidence by half a point up to 1.0, and changes nothing else |
| OrchestrationGraph.ResearcherStep | src/agentic_demo/orchestration/graph.py:41-63 | the researcher logs itself and keeps the sources in order with no two equal up to case and none lost up to case, changing nothing else |
| OrchestrationGraph.CriticStep | src/agentic_demo/orchestration/graph.py:86-102 | the critic logs itself, counts one more attempt, scores 1.0 from the third attempt on and 0.0 before, and changes nothing else |
| OrchestrationGraph.Apply | src/agentic_demo/orchestration/graph.py:21-136 | every node logs its own name, leaves the prompt alone, and only the researcher, planner and critic touch sources, confidence and critic fields |
| OrchestrationGraph.PlannerRoute | src/agentic_demo/orchestration/graph.py:155-156 | to the weaver exactly when the confidence is at least 0.9, otherwise to research |
| OrchestrationGraph.CriticRoute | src/agentic_demo/orchestration/graph.py:166-171 | approve exactly when the score is at least 0.5 or three attempts were made, otherwise revise |
| OrchestrationGraph.WeaverLoop | src/agentic_demo/orchestration/graph.py:164-179 | from the weaver the run ends: weaver and critic alternate until the third critic attempt in all (at least once), then approver and exporter run |
| OrchestrationGraph.RoundsPrefix | src/agentic_demo/orchestration/graph.py:164-176 | one weaver/critic round followed by k-1 more is k rounds |
| OrchestrationGraph.CriticPassesBounded | src/agentic_demo/orchestration/graph.py:100-169 | the critic runs between one and three times, three from a fresh state |
| OrchestrationGraph.TwoPlannerCalls | src/agentic_demo/orchestration/graph.py:34-156 | from confidence 0 the first planner call routes to research and the second to the weaver |
| OrchestrationGraph.FreshRun | tests/test_orchestration_graph.py:39-62 | a fresh run logs planner, researcher, planner, three weaver/critic rounds, approver and exporter; the sources are deduplicated once; the critic ran three times |
| OrchestrationGraph.PlannerPhase | src/agentic_demo/orchestration/graph.py:153-163 | from confidence 0 the run passes planner, researcher and planner and reaches the weaver with full confidence and deduplicated sources |
| OrchestrationGraph.ThreeRounds | tests/test_orchestration_graph.py:45-57 | three rounds log weaver and critic three times |
| OrchestrationGraph.ResearcherExample | tests/test_orchestration_graph.py:65-69 | sources "A", "a", "B" become "A", "B" |
| OrchestrationGraph.FirstSpelling | src/agentic_demo/orchestration/graph.py:57-61 | of two spellings of one source the first stays, and a different source stays after it |
| OrchestrationGraph.Planner | src/agentic_demo/orchestration/graph.py:21-35 | the state is updated in place as the planner step says and returned as a value |
| OrchestrationGraph.ResearcherWeb | src/agentic_demo/orchestration/graph.py:41-63 | the state is updated in place as the researcher step says and returned as a value |
| OrchestrationGraph.DedupSources | src/agentic_demo/orchestration/graph.py:55-62 | the loop with its `seen` set keeps the first source of each lowercase form, in order |
| OrchestrationGraph.DedupOne | src/agentic_demo/orchestration/graph.py:57-61 | one more source updates `seen` and the kept list as the first-occurrence selection says |
| OrchestrationGraph.LogOnly | src/agentic_demo/orchestration/graph.py:69-136 | the weaver, approver and exporter append their name to the log and change nothing else |
| OrchestrationGraph.Critic | src/agentic_demo/orchestration/graph.py:86-102 | the state is updated in place as the critic step says and returned as a value |
| CoreState.ModuleActivitiesAppend | src/core/state.py:50-55 | the activities of two runs of modules are the activities of the first run followed by those of the second |
| CoreState.ModuleActivitiesAt | src/core/state.py:53-54 | each module's activities appear, unchanged and contiguous, after the activities of the modules before it |
| CoreState.Activities | src/core/state.py:49-55 | the loop returns the activities of all modules, module after module |
| CoreState.ToSet | src/core/state.py:107 | the set holds exactly the URLs of the list |
| CoreState.DistinctCons | src/core/state.py:106-108 | a list is free of repeats exactly when its head is not in its tail and the tail is free of repeats |
| CoreState.DuplicatesIffRepeat | src/core/state.py:106-108 | the set is never larger than the list, and smaller exactly when some URL repeats |
| CoreState.Urls | src/core/state.py:106 | one URL per source, in order |
| CoreState.PostInit | src/core/state.py:102-108 | construction passes exactly when the prompt is not empty and no citation URL repeats |
| CoreState.ValidateState | src/core/state.py:181-197 | passes exactly when the prompt is not empty, the version is not negative and no URL repeats; an empty prompt is reported first, then a negative version |
| CoreState.ValidImpliesConstructible | src/core/state.py:102-197 | a state that passes `validate_state` passes construction |
| CoreState.State.constructor | src/core/state.py:72-100 | the fields hold the given values |
| CoreState.NewState | src/core/state.py:72-108 | a state is made exactly when construction passes, with the given fields; otherwise the construction error is returned |
| CoreState.IncrementVersion | src/core/state.py:168-178 | the version goes up by one and the new version is returned |
| CoreState.ToDict | src/core/state.py:110-133 | every field is written, the prompt and version among them |
| CoreState.FromDict | src/core/state.py:135-165 | reading back succeeds exactly when the fields, with defaults for missing keys, pass construction |
| CoreState.FromDictDefaults | src/core/state.py:146-164 | missing keys take their defaults: no sources, an empty outline, an empty retry map, version 1, no report |
| CoreState.FromDictNeedsPrompt | src/core/state.py:104-146 | a missing or empty prompt makes reading back fail with "prompt must be non-empty" |
| CoreState.RoundTrip | src/core/state.py:110-165 | reading back the dictionary of a constructible state gives the same fields |
| Entries.Created | src/web/routes/entries.py:37-39 | creation keeps every existing entry, appends one with the next id and the topic, and keeps ids numbered from 1 |
| Entries.CreatedAllNumbers | src/web/routes/entries.py:37-39 | after n creations the entries carry ids 1 to n and the submitted topics, in creation order |
| Entries.EntryStore.constructor | src/web/routes/entries.py:23 | the list starts empty |
| Entries.EntryStore.ListEntries | src/web/routes/entries.py:26-30 | every entry, in insertion order |
| Entries.EntryStore.CreateEntry | src/web/routes/entries.py:33-39 | the list gains the new entry at its end, which is returned, with the next id and the topic; ids stay numbered from 1 |
| MetricsCollector.Repository.constructor | src/metrics/collector.py:15-16 | a repository starts with no saved records |
| MetricsCollector.Repository.Save | src/metrics/collector.py:34 | `save` keeps one more record, at the end |
| MetricsCollector.ReplayKeepsOrder | src/metrics/collector.py:19-35 | over any calls, the saved records followed by the buffer are everything recorded, in order, so across flushes the repository receives the batches one after another; after a flush the buffer is empty |
| MetricsCollector.NoFlushNoSave | tests/test_metrics_collector.py:14-21 | nothing reaches the repository before a flush |
| MetricsCollector.Collector.constructor | src/metrics/collector.py:15-17 | a collector starts with an empty buffer over the given repository |
| MetricsCollector.Collector.Record | src/metrics/collector.py:19-28 | one record with the given workspace, name, value and timestamp goes at the end of the buffer; the repository is not touched |
| MetricsCollector.Collector.FlushToDb | src/metrics/collector.py:30-35 | the buffered records are saved in buffer order, then the buffer is empty |
| OfflineCache.SanitizeChar | src/agents/offline_cache.py:20 | an allowed character stays, any other becomes '_' |
| OfflineCache.Sanitize | src/agents/offline_cache.py:20 | the sanitised name has the query's length, only characters of `[A-Za-z0-9_-]`, each the query's character or '_' in place of a disallowed one |
| OfflineCache.SanitizeKeeps | src/agents/offline_cache.py:20 | a query of allowed characters is its own name |
| OfflineCache.Idempotent | src/agents/offline_cache.py:20 | sanitising twice is sanitising once |
| OfflineCache.CacheFile | src/agents/offline_cache.py:18-21 | the path is the cache directory, a slash, one name character per query character, and ".json", so it stays inside the directory |
| OfflineCache.SpaceBecomesUnderscore | src/agents/offline_cache.py:20-21 | two allowed words joined by a space are cached under the words joined by '_' |
| OfflineCache.HelloWorld | src/agents/offline_cache.py:20-21 | "hello world" is cached in "workspace/cache/hello_world.json" |
| OfflineCache.SanitizeSplit | src/agents/offline_cache.py:20 | sanitising works character by character over a split query |
| OfflineCache.SanitizeAt | src/agents/offline_cache.py:20 | each position of the name is the sanitised query character there |
| OfflineCache.SharedFile | src/agents/offline_cache.py:20-21 | different queries can share a file: "a b" and "a_b" do |
| Workflow.CleanLine | app/workflow.py:23 | the cleaned line is no longer than the line and has no surrounding whitespace |
| Workflow.ParseOutline | app/workflow.py:22-24 | one cleaned line per non-blank line, in order |
| Workflow.CleanBullet | app/workflow.py:23 | a "- " bullet is reduced to its text |
| Workflow.NotBlank | app/workflow.py:24 | a line with a character that is not whitespace is kept |
| Workflow.ParseLines | app/workflow.py:22-24 | non-blank lines joined by newlines are parsed back one by one |
| Workflow.BulletOutline | tests/test_workflow.py:6-9 | "- Intro\n- Body\n- Conclusion" gives ["Intro", "Body", "Conclusion"] |
| Workflow.BulletLines | app/workflow.py:24 | bullet lines of single-line words are non-blank lines without line breaks |
| Workflow.NumbersKept | app/workflow.py:23 | numbering is not removed: "1. " followed by a text ending in a non-space, such as "1. Intro", stays as it is |
| DocumentDag.GroupsEnd | app/document_dag.py:26 | the end of the `(?:\.\d+)*` run: only digits and dots are skipped, and no further dot-digit group follows |
| DocumentDag.HashesEnd | app/document_dag.py:26 | the end of the run of '#' |
| DocumentDag.PrefixEnd | app/document_dag.py:26-27 | a prefix is found exactly when the line starts with '-', '*', '#' or a digit; a dash or star is one character, hashes are the whole run, a number is digits and dots with an optional closing '.' or ')' |
| DocumentDag.UpToNewline | app/document_dag.py:26-29 | `(.*)` stops before the first newline |
| DocumentDag.CleanHeading | app/document_dag.py:21-30 | the result has no surrounding whitespace, is never longer than the stripped line, and is the stripped line when it has no prefix |
| DocumentDag.ParseOutline | app/document_dag.py:32-36 | one cleaned heading per non-blank line, in order |
| DocumentDag.AfterMarker | app/document_dag.py:26-29 | a marker, a space and a text give the text |
| DocumentDag.CleanAfter | app/document_dag.py:26-29 | after the prefix and the spaces the rest of the line is returned stripped |
| DocumentDag.CleanStripped | app/document_dag.py:25-29 | a stripped line with a prefix gives the stripped rest of its first line after the prefix and following whitespace |
| DocumentDag.SpaceThenText | app/document_dag.py:26-29 | `\s*(.*)` then `strip` returns a single-line text unchanged |
| DocumentDag.UpToNewlineNone | app/document_dag.py:26 | a text without newline is matched whole by `(.*)` |
| DocumentDag.PrefixExamples | app/document_dag.py:26 | "1.", "1.1", "##" and "-" are prefixes of 2, 3, 2 and 1 characters |
| DocumentDag.NumberedHeading | app/document_dag.py:21-30 | "1. " followed by a stripped single-line text, such as "1. Intro", gives the text |
| DocumentDag.SubsectionHeading | app/document_dag.py:21-30 | "1.1 " followed by such a text, such as "1.1 Details", gives the text |
| DocumentDag.MarkdownHeading | app/document_dag.py:21-30 | "## " followed by such a text, such as "## Conclusion", gives the text |
| DocumentDag.OnePrefixOnly | app/document_dag.py:26-29 | only one prefix is removed: "- - text" gives "- text" |
| Planner.DigitRun | src/agents/planner.py:70 | the `\d+` run at the head of a line: every character before it is a digit and the one after it is not |
| Planner.Steps | src/agents/planner.py:76-81 | the fallback never yields more steps than the text has lines |
| Planner.CollectFrom | src/agents/planner.py:77-80 | every step comes from some line of the text that matches the line pattern |
| Planner.StepsTrimmed | src/agents/planner.py:80 | every step is stripped: it neither starts nor ends with whitespace |
| Planner.LineStepTrimmed | src/agents/planner.py:78-80 | the step taken from one matching line is stripped |
| Planner.StripTrimmed | src/agents/planner.py:80 | `str.strip` leaves no whitespace at either end |
| Planner.ExtractOutline | src/agents/planner.py:73-81 | the loop builds the outline of the matching lines' stripped groups, at most one per line, with no objectives or modules |
| Planner.StepsStep | src/agents/planner.py:77-80 | one more line appends its stripped group when it matches and changes nothing otherwise |
| Planner.BulletLine | src/agents/planner.py:70 | leading spaces, "-" or "*", and whitespace: the group is the rest after the whitespace |
| Planner.NumberedLine | src/agents/planner.py:70 | digits, ".", and whitespace: the group is the rest after the whitespace |
| Planner.LStripAt | src/agents/planner.py:70 | the `\s+` run ends at the first non-space character |
| Planner.DigitRunAt | src/agents/planner.py:70 | the digit run ends at the first non-digit |
| Planner.UnmarkedLine | src/agents/planner.py:70 | a line whose first non-space character is neither "-", "*" nor a digit does not match |
| Planner.Confidence | src/agents/planner.py:100-102 | the confidence lies in [0, 1] and is 0 exactly when there are no steps |
| Planner.ConfidenceMonotone | src/agents/planner.py:102 | more steps never lower the confidence, and five or more reach the cap of 1.0 |
| Planner.RunPlanner | src/agents/planner.py:84-105 | the state's outline becomes the validated steps stripped, or the fallback outline when validation fails, and the result carries that outline and its confidence |
| Planner.OneDigitItem | src/agents/planner.py:70-80 | "d. item" with a stripped item gives the item |
| Planner.ThreeLines | src/agents/planner.py:77 | three lines joined by "\n" split back into the three lines |
| Planner.NoBreaks | src/agents/planner.py:77 | printable ASCII holds no line break |
| Planner.AllMatch | src/agents/planner.py:77-80 | lines that all match give their groups in order |
| Planner.NumberedItemLine | src/agents/planner.py:70-80 | a numbered prefix and a plain item give the item |
| Planner.NumberedItemNoBreaks | src/agents/planner.py:77 | a numbered item line holds no line break |
| Planner.ThreeItems | src/agents/planner.py:76-81 | three matching lines give their three items |
| Planner.NumberedReplyExample | tests/agents/test_planner.py:14-26 | a three-item numbered reply gives its three items and confidence 0.8 |
| Planner.EmptyReplyExample | tests/agents/test_planner.py:29-41 | an empty reply that fails validation gives no steps and confidence 0.0 |
| FactChecker.Positions | src/agents/fact_checker.py:25-31 | the 1-based positions of the items that pass the test, each within the input and naming a passing item |
| FactChecker.PositionsOrdered | src/agents/fact_checker.py:25 | the positions strictly increase |
| FactChecker.PositionsComplete | src/agents/fact_checker.py:25-31 | every passing item's position is among them |
| FactChecker.Numbered | src/agents/fact_checker.py:31-35 | one result per position, built from the position and the item at it |
| FactChecker.NumberedStep | src/agents/fact_checker.py:25-35 | one more item appends its numbered result exactly when it passes |
| FactChecker.PositionsSecond | src/agents/fact_checker.py:25-31 | of two items, only the second passing gives position 2 |
| FactChecker.PositionsFirst | src/agents/fact_checker.py:49-51 | of two items, only the first passing gives position 1 |
| FactChecker.NumberedSingle | src/agents/fact_checker.py:31-35 | one position gives the one result for that item |
| FactChecker.TerminatorEnd | src/agents/fact_checker.py:23 | the piece before the first ".", "!" or "?" holds no terminator, and the split stops at one |
| FactChecker.SplitSentences | src/agents/fact_checker.py:23 | `re.split` gives at least one piece, and no piece holds a terminator |
| FactChecker.CleanCons | src/agents/fact_checker.py:23 | a terminator-free piece before terminator-free pieces keeps the whole list terminator-free |
| FactChecker.StripPiece | src/agents/fact_checker.py:23 | a piece with text strips to a non-empty, terminator-free sentence |
| FactChecker.SentencesClean | src/agents/fact_checker.py:23 | every kept sentence is non-empty, stripped at both ends and free of terminators |
| FactChecker.Probability | src/agents/fact_checker.py:26-30 | the score falls below 0.6 exactly when the lowercased sentence holds a low-confidence phrase |
| FactChecker.LowConfidenceSound | src/agents/fact_checker.py:25-35 | each result is a doubtful sentence with its 1-based number and the score 0.4 |
| FactChecker.LowConfidenceOrdered | src/agents/fact_checker.py:25 | the results follow the sentences' order |
| FactChecker.LowConfidenceComplete | src/agents/fact_checker.py:25-35 | every doubtful sentence is reported |
| FactChecker.LowConfidenceStep | src/agents/fact_checker.py:25-35 | one more sentence appends its result exactly when it is doubtful |
| FactChecker.AssessHallucinationProbabilities | src/agents/fact_checker.py:20-36 | the loop returns exactly the low-confidence results of the stripped, non-empty sentences |
| FactChecker.ClaimsSound | src/agents/fact_checker.py:49-51 | each flag names a line within the text that has a claim phrase and no citation, with that line stripped |
| FactChecker.ClaimsOrdered | src/agents/fact_checker.py:49 | the flags follow the lines' order |
| FactChecker.ClaimsComplete | src/agents/fact_checker.py:49-51 | every line with an uncited claim is flagged |
| FactChecker.ClaimsStep | src/agents/fact_checker.py:49-51 | one more line appends its flag exactly when it holds an uncited claim |
| FactChecker.ScanUnsupportedClaims | src/agents/fact_checker.py:45-52 | the loop returns exactly the flags of the text's lines |
| FactChecker.CompileFactCheckReport | src/agents/fact_checker.py:55-65 | the report carries both lists and their lengths as counts |
| FactChecker.RunFactChecker | src/agents/fact_checker.py:68-81 | an outline without steps is an error; otherwise the report of the steps joined by "\n" |
| FactChecker.TerminatorAfter | src/agents/fact_checker.py:23 | the first terminator after a terminator-free piece ends it |
| FactChecker.SplitFirst | src/agents/fact_checker.py:23 | a piece and "." split off, the rest split after its leading whitespace |
| FactChecker.TwoPieces | src/agents/fact_checker.py:23 | "a. b." splits into a, b and an empty tail |
| FactChecker.SplitLast | src/agents/fact_checker.py:23 | "b." splits into b and an empty tail |
| FactChecker.TwoSentences | src/agents/fact_checker.py:23 | two stripped sentences separated by whitespace are the two kept sentences |
| FactChecker.StripTwo | src/agents/fact_checker.py:23 | stripping two stripped sentences keeps them |
| FactChecker.KeepTwo | src/agents/fact_checker.py:23 | the empty tail is dropped |
| FactChecker.SpacesThen | src/agents/fact_checker.py:23 | the `\s*` run ends at the first non-space |
| FactChecker.OneDoubtfulSentence | tests/agents/test_fact_checker.py:17-21 | a sure sentence then a doubtful one report only the second, numbered 2 |
| FactChecker.MaybeDoubtful | tests/agents/test_fact_checker.py:18-21 | a sentence starting "Maybe" is doubtful |
| FactChecker.StudiesShowClaim | tests/agents/test_fact_checker.py:25-28 | a line starting "Studies show" holds a claim phrase |
| FactChecker.OneUncitedClaim | tests/agents/test_fact_checker.py:24-28 | a claim line then a plain line flag only line 1 |
| FactChecker.ReportCounts | tests/agents/test_fact_checker.py:31-38 | a claim step then a doubtful step count one hallucination and one unsupported claim |
| FactChecker.JoinedSteps | src/agents/fact_checker.py:78 | two steps join with one "\n" |
| FactChecker.StepsSplit | src/agents/fact_checker.py:78-80 | the joined steps split back into the steps |
| FactChecker.NoStepsIsError | tests/agents/test_fact_checker.py:41-44 | an outline without steps is the missing-steps error |
| FactChecker.VerifySources | src/agents/fact_checker.py:103-127 | one result per URL in order: "unchecked" offline; otherwise "ok" exactly when the HEAD succeeded below 400, else "error", with the declared licence |
| FactChecker.OfflineExample | tests/agents/test_fact_checker.py:47-53 | offline, a source is "unchecked" |
| FactChecker.MetadataExample | tests/agents/test_fact_checker.py:56-77 | a 200 response with an MIT licence gives "ok" and "MIT" |
| PedagogyCritic.BloomLevelsDistinct | src/agents/pedagogy_critic.py:27-34 | the six Bloom levels are distinct |
| PedagogyCritic.KeywordClassify | src/agents/pedagogy_critic.py:62-69 | the loop returns the level of the first verb, in the map's order, that occurs in the lowercased text, or "unknown" |
| PedagogyCritic.FirstLevelFound | src/agents/pedagogy_critic.py:66-68 | when verb k is the first one found, its level is the answer |
| PedagogyCritic.FirstLevelUnknown | src/agents/pedagogy_critic.py:66-69 | the answer is "unknown" exactly when no verb occurs in the text |
| PedagogyCritic.VerbLevels | src/agents/pedagogy_critic.py:38-51 | every verb maps to one of the Bloom levels |
| PedagogyCritic.FirstLevelIn | src/agents/pedagogy_critic.py:66-69 | with levels drawn from Bloom's, the answer is a Bloom level or "unknown" |
| PedagogyCritic.KeywordLevelRange | src/agents/pedagogy_critic.py:62-69 | the keyword level is a Bloom level or "unknown", and "unknown" exactly when no verb of the map occurs |
| PedagogyCritic.ListRemembers | src/agents/pedagogy_critic.py:39 | a text starting "list" is "remember" |
| PedagogyCritic.ClassifyBloomLevel | src/agents/pedagogy_critic.py:72-94 | the model's stripped, lowercased level when it is a Bloom level, and the keyword level otherwise; always a Bloom level or "unknown" |
| PedagogyCritic.TallyCounts | src/agents/pedagogy_critic.py:104-107 | tallying keeps the keys and adds to a level the number of objectives classified into it |
| PedagogyCritic.BloomLevelCounts | src/agents/pedagogy_critic.py:103-112 | the counts have exactly the six levels as keys, each counting the objectives, top-level then per activity, classified into it |
| PedagogyCritic.TallyAppend | src/agents/pedagogy_critic.py:104-112 | tallying two lists in turn is tallying their concatenation |
| PedagogyCritic.ActivityObjectivesStep | src/agents/pedagogy_critic.py:108-109 | one more activity contributes its objectives at the end |
| PedagogyCritic.TallyStep | src/agents/pedagogy_critic.py:105-107 | one more objective bumps its level |
| PedagogyCritic.AnalyzeBloomCoverage | src/agents/pedagogy_critic.py:97-118 | the loops build the coverage report of the outline under the classifier |
| PedagogyCritic.TallyActivities | src/agents/pedagogy_critic.py:108-112 | the activities' loop extends the tally by every activity's objectives |
| PedagogyCritic.TallyEach | src/agents/pedagogy_critic.py:104-107 | the objectives' loop extends the tally by each objective |
| PedagogyCritic.SumBump | src/agents/pedagogy_critic.py:106-107 | bumping one level raises the sum over the distinct levels by one exactly when the level is among them |
| PedagogyCritic.SumTally | src/agents/pedagogy_critic.py:104-112 | the tally raises the sum over the levels by the number of objectives classified into some level |
| PedagogyCritic.SumBumpLevel | src/agents/pedagogy_critic.py:106-107 | bumping a Bloom level raises the total by one, and any other level leaves it unchanged |
| PedagogyCritic.SumZero | src/agents/pedagogy_critic.py:103 | the counts start at zero |
| PedagogyCritic.BloomCountsSum | src/agents/pedagogy_critic.py:103-112 | the counts add up to the objectives classified into a Bloom level; those classified otherwise are not counted |
| PedagogyCritic.MissingInIff | src/agents/pedagogy_critic.py:114 | a level is missing exactly when it is a level with count 0 |
| PedagogyCritic.MissingInOrder | src/agents/pedagogy_critic.py:114 | the missing levels keep the order of the level list |
| PedagogyCritic.CoveredSplit | src/agents/pedagogy_critic.py:113-114 | covered and missing levels split the level list, and the covered ones are those counted at least once, without repeats |
| PedagogyCritic.DistinctTail | src/agents/pedagogy_critic.py:27-34 | the tail of a list without repeats has none and lacks the head |
| PedagogyCritic.CoveredCons | src/agents/pedagogy_critic.py:113 | a level not among the tail's covered levels keeps the covered levels distinct |
| PedagogyCritic.DistinctCard | src/agents/pedagogy_critic.py:113-115 | a list without repeats has as many elements as its set |
| PedagogyCritic.MissingLevels | src/agents/pedagogy_critic.py:113-114 | a level is missing exactly when no objective is classified into it, and the missing levels follow the taxonomy's order |
| PedagogyCritic.CoveredSize | src/agents/pedagogy_critic.py:113-115 | covered plus missing is six |
| PedagogyCritic.CoveredIsSet | src/agents/pedagogy_critic.py:113 | the covered set is the set of the covered levels |
| PedagogyCritic.CoverageScore | src/agents/pedagogy_critic.py:115 | the score is the covered share of six levels, in [0, 1], and 1 exactly when nothing is missing |
| PedagogyCritic.CountZeroIff | src/agents/pedagogy_critic.py:105-107 | a level counts 0 exactly when no objective is classified into it |
| PedagogyCritic.ApplyMissing | tests/agents/test_pedagogy_critic.py:44-48 | with no objective classified "apply", "apply" is missing and the score is below 1 |
| PedagogyCritic.CreateCovered | tests/agents/test_pedagogy_critic.py:73-81 | one objective classified "create" keeps "create" off the missing list |
| PedagogyCritic.KindsCounted | src/agents/pedagogy_critic.py:124 | the counted types are exactly those occurring, each listed once |
| PedagogyCritic.AboveHalf | src/agents/pedagogy_critic.py:130 | a share above 0.5 means twice the count exceeds the total |
| PedagogyCritic.PositiveProduct | src/agents/pedagogy_critic.py:126 | a positive total keeps the sign of a share |
| PedagogyCritic.EvaluateActivityDiversity | src/agents/pedagogy_critic.py:121-136 | the loop returns the diversity report of the activities |
| PedagogyCritic.KindCountPair | src/agents/pedagogy_critic.py:124 | two different types together never outnumber the activities |
| PedagogyCritic.KindCountBound | src/agents/pedagogy_critic.py:124 | no type outnumbers the activities |
| PedagogyCritic.CountSumStep | src/agents/pedagogy_critic.py:124-125 | one more activity adds one to the sum over distinct types exactly when its type is among them |
| PedagogyCritic.CountSumAppend | src/agents/pedagogy_critic.py:125 | one more type adds its count |
| PedagogyCritic.TotalIsLength | src/agents/pedagogy_critic.py:124-125 | the counts add up to the number of activities, and the total is 1 when there are none |
| PedagogyCritic.FirstDominantFound | src/agents/pedagogy_critic.py:129-133 | the first type above half is found, and when none is found no type is above half |
| PedagogyCritic.DominantIsMajority | src/agents/pedagogy_critic.py:121-136 | a type is dominant exactly when it is a strict majority of the activities, and the outline is balanced exactly when none is |
| PedagogyCritic.PercentageOf | src/agents/pedagogy_critic.py:124-126 | each occurring type, and only those, has its count over the number of activities as its share |
| PedagogyCritic.LecturesDominate | tests/agents/test_pedagogy_critic.py:51-55 | two lectures and a discussion: lecture dominates and the outline is unbalanced |
| PedagogyCritic.LoadAppend | src/agents/pedagogy_critic.py:142-145 | the total duration and the overloaded segments of two lists are those of each in turn |
| PedagogyCritic.OverloadedSound | src/agents/pedagogy_critic.py:143-145 | every overloaded segment describes an activity longer than 45 minutes, and without one there are none |
| PedagogyCritic.LoadBound | src/agents/pedagogy_critic.py:142-145 | with non-negative durations the total is at least 46 minutes per overloaded segment |
| PedagogyCritic.LongIntroOverloads | tests/agents/test_pedagogy_critic.py:58-61 | durations 90, 30 and 30 overload only the first segment |
| PedagogyCritic.Recommendations | src/agents/pedagogy_critic.py:158-171 | one recommendation per failed check, in the order Bloom, diversity, load, each with its prefix and the joined items |
| PedagogyCritic.AdviceStarts | src/agents/pedagogy_critic.py:160-170 | each recommendation starts with its advice |
| PedagogyCritic.AdviceIff | src/agents/pedagogy_critic.py:158-171 | each kind of advice is given exactly when its check fails |
| PedagogyCritic.RunPedagogyCritic | src/agents/pedagogy_critic.py:149-177 | the critique holds the three reports of the state's outline and their recommendations |
| AuthorityRanking.ScoreDomainAuthority | src/agents/researcher_web.py:111-119 | 1.0 exactly for a lowercased domain ending ".gov" or ".edu", 0.8 exactly for one ending ".org" and neither of those, 0.5 otherwise |
| AuthorityRanking.LowerTwice | src/agents/researcher_web.py:114 | lowercasing is idempotent |
| AuthorityRanking.ScoreIgnoresCase | src/agents/researcher_web.py:114 | the score does not depend on the domain's case |
| AuthorityRanking.InsertMultiset | src/agents/researcher_web.py:129 | inserting into the sorted list adds exactly that element |
| AuthorityRanking.InsertElements | src/agents/researcher_web.py:129 | every element after an insertion is the new one or an old one |
| AuthorityRanking.InsertDescending | src/agents/researcher_web.py:129 | inserting keeps the list in descending order of the key |
| AuthorityRanking.WithKeyNone | src/agents/researcher_web.py:129 | without an element of a key, the elements of that key are none |
| AuthorityRanking.InsertWithKey | src/agents/researcher_web.py:129 | inserting puts the new element after the old elements of its key |
| AuthorityRanking.InsertAfterHead | src/agents/researcher_web.py:129 | an element not above the head goes into the tail without changing the order of equal keys |
| AuthorityRanking.WithKeyCons | src/agents/researcher_web.py:129 | the elements of a key in a list are the head's, when it has that key, then the tail's |
| AuthorityRanking.InsertBeforeHead | src/agents/researcher_web.py:129 | an element above the head goes first, after no element of its key |
| AuthorityRanking.DescendingTail | src/agents/researcher_web.py:129 | the tail of a descending list is descending |
| AuthorityRanking.WithKeyAppend | src/agents/researcher_web.py:129 | the elements of a key in two lists are those of each in turn |
| AuthorityRanking.SortPermutes | src/agents/researcher_web.py:129 | sorting is a permutation |
| AuthorityRanking.SortOrders | src/agents/researcher_web.py:129 | sorting with `reverse=True` gives descending keys |
| AuthorityRanking.SortStable | src/agents/researcher_web.py:129 | elements of equal key keep their input order, as Python's sort is stable |
| AuthorityRanking.SortProperties | src/agents/researcher_web.py:129 | the sorted list is a permutation in descending order that keeps ties in input order |
| AuthorityRanking.RankByAuthorityOrdered | src/agents/researcher_web.py:122-129 | the ranking is a permutation of the drafts by descending authority of their hosts, ties in input order |
| AuthorityRanking.EduBeforeBlog | tests/test_authority_and_filter.py:12-17 | a ".edu" draft moves ahead of a ".com" one |
| AuthorityRanking.BlogScore | src/agents/researcher_web.py:119 | "blog.com" scores 0.5 |
| AuthorityRanking.EduScore | src/agents/researcher_web.py:115-116 | "uni.edu" scores 1.0 |
| CopyrightFilter.FilterAllowlist | src/agents/copyright_filter.py:13-28 | the loop returns the drafts whose lowercased host contains some lowercased pattern, and the others, each in input order |
| CopyrightFilter.FilterAllowlistPartition | src/agents/copyright_filter.py:22-28 | every draft lands in exactly one of the two lists |
| CopyrightFilter.FilterAllowlistOrder | src/agents/copyright_filter.py:22-28 | both lists keep the input order |
| CopyrightFilter.FilterAllowlistKept | src/agents/copyright_filter.py:24-28 | a draft is kept exactly when some pattern occurs in its lowercased host, and dropped exactly when none does |
| CopyrightFilter.LowerUnchanged | src/agents/copyright_filter.py:19 | a lowercase text is its own lowercase form |
| CopyrightFilter.MissingChar | src/agents/copyright_filter.py:25 | a pattern with a character the host lacks does not occur in it |
| CopyrightFilter.Suffix | src/agents/copyright_filter.py:25 | a suffix of the host occurs in it |
| CopyrightFilter.TooLong | src/agents/copyright_filter.py:25 | a pattern longer than the host does not occur in it |
| CopyrightFilter.ExamplePatterns | tests/test_authority_and_filter.py:22 | the test's patterns are already lowercase |
| CopyrightFilter.ExampleHostAllowed | tests/test_authority_and_filter.py:24 | "example.com" is allowed |
| CopyrightFilter.OtherHostDropped | tests/test_authority_and_filter.py:25 | "other.net" matches no pattern |
| CopyrightFilter.OtherHostNotEdu | tests/test_authority_and_filter.py:25 | ".edu" does not occur in "other.net" |
| CopyrightFilter.SiteHostAllowed | tests/test_authority_and_filter.py:26 | "site.edu" is allowed |
| CopyrightFilter.AllowlistExample | tests/test_authority_and_filter.py:20-30 | example.com and site.edu are kept and other.net dropped, in input order |
| Alerts.BreachPayload | src/metrics/alerts.py:38-48 | the payload holds each breached metric, and only those, with its value |
| Alerts.BreachesIffPayload | src/metrics/alerts.py:28-48 | a summary has breaches exactly when its payload is not empty |
| Alerts.OrZero | src/metrics/alerts.py:73-75 | a metric never recorded counts as 0 |
| Alerts.EvaluateThresholds | src/metrics/alerts.py:70-89 | a missing threshold is an error; otherwise the latest metrics, a pedagogical score breaching below its threshold and the other two above theirs |
| Alerts.AtThresholdNoBreach | src/metrics/alerts.py:76-79 | metrics exactly at their thresholds raise no alert |
| Alerts.NoMetrics | src/metrics/alerts.py:73-79 | with no metrics, the pedagogical threshold is breached exactly when positive and the others exactly when negative |
| Alerts.SendWebhook | src/metrics/alerts.py:91-101 | no request without a URL or without breaches; otherwise one post of the workspace and its breached metrics with a 10-second timeout |
| Alerts.PostsBreaches | tests/test_alert_webhook.py:26-43 | a pedagogical and a cost breach are posted, and the hallucination rate is not |
| CitationPattern.DigitsEndAt | src/agents/fact_checker.py:42 | the digit run ends at the first non-digit |
| CitationPattern.BracketAtIff | src/agents/fact_checker.py:42 | the scan finds `\[[0-9]+\]` at a position exactly when such a match starts there |
| CitationPattern.ClosesFromIff | src/agents/fact_checker.py:42 | the scan finds a closing parenthesis on the same line exactly when one exists |
| CitationPattern.YearFromIff | src/agents/fact_checker.py:42 | the scan finds four digits followed by a closing parenthesis exactly when they exist |
| CitationPattern.YearAtIff | src/agents/fact_checker.py:42 | the scan finds `\(.*?\d{4}.*?\)` at a position exactly when such a match starts there |
| CitationPattern.CitedFromIff | src/agents/fact_checker.py:42 | the scan from a position finds a citation exactly when a match starts at or after it |
| CitationPattern.HasCitationIff | src/agents/fact_checker.py:42-50 | `search` succeeds exactly when some position starts a match of either alternative |
| CitationPattern.NoCitation | src/agents/fact_checker.py:42 | a line without "[" or "(" holds no citation |
| CitationPattern.NotCitedFrom | src/agents/fact_checker.py:42 | without "[" or "(", no position starts a citation |
| CitationPattern.BracketCites | src/agents/fact_checker.py:42 | "[d]" anywhere is a citation |
| CitationPattern.CitedBefore | src/agents/fact_checker.py:42 | a bracket match at or after a position is found from it |
| ConversationGraph.History | app/graph.py:18-25 | one message per node, each the node's result on the input or the previous message |
| ConversationGraph.HistoryStep | app/graph.py:22-24 | one more node appends its result on the latest state |
| ConversationGraph.Run | app/graph.py:18-25 | the loop returns the history and, as output, the last message or the input when there are no nodes |
| ConversationGraph.HistoryUnique | app/graph.py:18-25 | any list of messages that chains the nodes this way is the history |
| ConversationGraph.BuildGraph | app/graph.py:28-36 | four nodes, plan, research and draft, then a review node that passes the review through the overlay when one is given |
| ConversationGraph.StubbedOutput | tests/test_graph.py:10-36 | with stubbed agents, the last message is "review", or "ov" with an overlay |
| Text.Lower | src/agents/researcher_web.py:114 | `str.lower` on ASCII: the same length, each character lowered |
| Text.Strip | src/agents/planner.py:80 | `str.strip`: no longer than the input, and neither end is whitespace |
| Text.StripSlice | src/agents/planner.py:80 | the stripped text is the input with whitespace removed at both ends only |
| Text.SplitLines | src/agents/planner.py:77 | `str.splitlines`: no line holds a line break |
| Text.SplitJoin | src/agents/fact_checker.py:78-80 | non-empty steps without line breaks, joined by "\n", split back into the steps |
| Text.ContainsAnyIff | src/agents/copyright_filter.py:25 | `any(p in s for p in patterns)` holds exactly when some pattern occurs |

## Left out

- Language-model calls are not modelled: `call_planner_llm`, the model call of `classify_bloom_level`, and the `plan`, `research`, `draft`, `review` and overlay agents of `app/graph.py`. Their replies are parameters.
- Network and HTTP are parameters. The HEAD requests of `verify_sources` are a `Head` function. The webhook of `send_webhook` is the `Post` it returns. The searches behind the web researcher are the responses they gathered.
- The concurrency of `asyncio.gather` in `verify_sources` and in the web researcher is not modelled. Results are produced in input order, which is the order `gather` returns.
- Databases and files are outside the model. This covers the metrics repository's SQLite table, the reading and writing of the offline cache's JSON files, the thresholds YAML file, and the environment variables the `AlertManager` constructor reads. The repository is a sink that keeps what it is given, and the thresholds are a map.
- Foreign parsers are parameters: `urllib.parse.urlparse`, JSON decoding, and the pydantic validation of `PlannerOutput`. The workspace store's `JSON.parse` in `connect` is a parameter as well.
- The EventSource wiring of `connect` in the workspace store is not modelled. Only its parse-then-dispatch step is.
- JSON numbers in the workspace store are integers only. A fractional number in a payload has no counterpart.
- Python's and JavaScript's Unicode text handling is not modelled. `str.lower`, `re.IGNORECASE` and the Bloom keyword matcher lower ASCII letters only. `\d` means ASCII digits. The whitespace classes are written out in full. Python's `str.isspace` is U+0009–U+000D, U+001C–U+0020, U+0085, U+00A0, U+1680, U+2000–U+200A, U+2028, U+2029, U+202F, U+205F and U+3000. JavaScript's `\s` is U+0009–U+000D, U+0020, U+00A0, U+1680, U+2000–U+200A, U+2028, U+2029, U+202F, U+205F, U+3000 and U+FEFF.
- Floating point is not modelled. Scores, percentages, costs and thresholds are exact reals. The planner's `round(0.5 + 0.1 * n, 2)` is the exact tenth `(5 + n) / 10`, to which the rounding brings the float.
- `AgentModels.AssessmentItem`: `max_score` is held as the text Python prints for it, because float formatting is not modelled.
- The `type` field of activities and assessment items is named `kind`, because `type` is a Dafny keyword.
- `PdfExport.ApplyCss`: `None` stands for an `OSError` only. A style sheet that is not UTF-8 makes `read_text` raise `UnicodeDecodeError`, which `apply_css` does not catch and the model does not have.
- `MarkdownExport.ReferenceItems`, `MarkdownExport.RenderReferences` and `MarkdownExport.FromWeaveResult` paste citation titles and URLs in verbatim, as evidently intended. The `%`-formatting of the source, which fails on or rewrites a `%` in them, is `MarkdownExport.ReferenceItemsAsWritten` (see Findings).
- Rendering to PDF is not modelled: `render_pdf`, and the `weasyprint` call of `PdfExporter.export`. Only the HTML step and `apply_css` are.
- The async tail of `orchestrate_regeneration` is not modelled: the content weaver and the re-run of the flow from the Editor. The model stops at the ids it would hand over and at whether that tail runs.
- `OrchestrationGraph.Run`: the runner's recursion limit is a parameter. The graph library's `compile_graph`, `stream_values` and `stream_updates` are not modelled. `Run` follows the same edges node by node.
- Timestamps are parameters: the clock of `MetricsCollector.Collector.Record` and the `datetime.now` of `CoreState.ActionLog`.
- `generate` in `app/workflow.py` and in `app/document_dag.py` calls the agents, so it is not modelled. Only the outline parsers are.
- HTTP routing and request validation of the entries endpoints are not modelled. `CoreState.Citation` URL syntax checks (`HttpUrl`) are not modelled either.
- `Regenerator.ParseIntToString` is stated for non-negative ids only, the line numbers the fact checker prints. `Regenerator.ParseInt` accepts surrounding whitespace, a sign and single underscores between digits, as `int()` does. It rejects the non-ASCII decimal digits that `int()` also accepts, such as `int("٣") == 3`. A section id can hold any text, for instance an activity description, so this difference can show.
- `FactChecker.RunFactChecker`: the state always carries an outline, as `State` gives it one by default. The `None` check of `getattr(state, "outline", None)` therefore has no separate case.
- `PedagogyCritic.RunPedagogyCritic`: `cast(Outline, state.outline)` is a view of the state's outline, with its objectives and its modules' activities. The `outline is None` check has no case, for the same reason as above.
- `PedagogyCritic.AssessCognitiveLoad` has no `ensures` of its own. Its properties are the lemmas `LoadAppend`, `OverloadedSound`, `LoadBound` and `LongIntroOverloads`.
- `collections.Counter` in `evaluate_activity_diversity` is a pair of functions: the types in first-occurrence order, and the count of each type.
- tests/test_workflow.py:12-15 expects numbered lines to lose their numbers. `parse_outline` in app/workflow.py:23 strips only dashes and spaces. The model follows the code, as `Workflow.NumbersKept` states.
- Several tests exercise interfaces that the code they import does not have. The model follows the code:
  - tests/test_policies.py:52-83 expects string results and no error;
  - tests/test_critic.py:8-37 expects an `_evaluate` retry;
  - tests/test_state.py:9-17 expects `State()` without a prompt to succeed;
  - tests/test_entries.py:32-44 uses name and email fields;
  - tests/core/test_regeneration.py:32-68 calls `orchestrate_regeneration` synchronously with a `graph` argument, patches in a three-argument `apply_regeneration` and builds `State()` without a prompt. The code is async and takes two arguments, and `State()` raises. `Regenerator.InvokesAndCounts` and `Regenerator.FourRounds` state what these tests check, on the code's own interface.
- The stream-client reconnect logic and the highlight scheduling of the document panel are not modelled: frontend `sseClient` and `DocumentPanel` are not part of this model.

## Findings

| source | as written | input that shows it | evidently intended | confidence | as-written member | corrected member |
|---|---|---|---|---|---|---|
| src/export/markdown.py:159 | the f-string pastes the title and URL into the line first, and `% (i)` then formats the result, so a `%` in either is read as a directive | a URL `https://e.org/a%20b` raises ValueError; a title `50%off` raises TypeError; a title `100%%` comes out as `100%` | the title and URL appear verbatim, followed by the footnote marker `[^i]` | high; not executed | MarkdownExport.ReferenceItemsAsWritten | MarkdownExport.ReferenceItems |
