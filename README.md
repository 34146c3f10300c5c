# Web research agent: the chat client's session reconciler and the agent's deterministic steps

This project models the deterministic core of a two-part research assistant and proves properties of it.

The chat client (TypeScript, React) keeps a session state:
- the transcript;
- the activity timeline of the answer being streamed;
- archived timelines, keyed by ai message id;
- an error text;
- the id of the ai message currently streaming;
- a `finalizedEvent` flag.

The research agent (Python, LangGraph) fans search queries out, resolves grounding chunks to short citation URLs, counts research loops, decides when to stop, and substitutes citations in the final answer.

## Modules

- `types.dfy` (`Types`): the client's value types: `Message`, `ProcessedEvent`, `EffortLevel`, `EffortConfig`, and an `Option`.
- `strings.dfy` (`Strings`): the library operations the core relies on, with their exact semantics:
  - `join`;
  - insertion-ordered `Set` de-duplication;
  - JavaScript `trim` (the ECMAScript whitespace and line-terminator set) and `length` in UTF-16 code units;
  - Python `in` on strings, `str.replace` (including an empty pattern), `split(c)[0]`;
  - decimal rendering of integers, with its round trip.
- `app.dfy` (`App`), the client component:
  - the event classifier `ProcessAgentEvent` and the web-research summary sentence;
  - the stream-error texts and the effort table;
  - the upstream payload;
  - the class `Reconciler`, whose four methods are the component's state updates.
    - `Submit` is `handleSubmit`.
    - `OnUpdateEvent` is the `onUpdateEvent` callback.
    - `OnStreamError` is `onError`/`handleStreamError`.
    - `OnThreadUpdate` is the effect on the thread's messages, loading flag and timeline.
  - Each React state update is one atomic method call.
  - The clock reading used for fresh ids is a parameter.
- `input_form.dfy` (`InputForm`): the validator, the form's own effort table, and the class `Form` (message, effort, error) with its submit handler.
- `agent_utils.dfy` (`AgentUtils`): `get_research_topic` and `resolve_urls`.
  - Both are imperative loops, proved against specification functions.
  - The `seen_urls` table is a `map` the loop extends.
- `agent_graph.dfy` (`AgentGraph`): the graph nodes, with the language-model results taken as inputs.
  - `continue_to_web_research`.
  - The flattening in `web_research`.
  - `reflection`, as a method on a class holding the mutable graph state.
  - `evaluate_research`.
  - The citation loop of `generate_answer`.

## Behaviour of the code, as modelled

- **Archiving ignores `finalizedEvent`.** The archive test at frontend/src/App.tsx:176 does not read the flag. The flag is set by the classifier's finalize branch and nothing ever reads or clears it, including `Submit`. The model carries the flag and states these facts.
- **There is no cancel path.** Nothing in the component cancels a stream, so the model has no cancel operation.
- **Validation lives in the form.** The component's `handleSubmit` accepts any text. Only the form validates.
- **The effect reads the streaming id the render saw.**
  - `OnThreadUpdate` uses that value both for creating or overwriting the ai message and for the archive test.
  - The branch that creates the ai message therefore never archives in the same run.
- **An answer is appended twice.** After an archive, clearing the timeline re-runs the effect (the timeline is one of its dependencies). The thread still ends with the same ai message, and no streaming id is set, so a second copy of the answer is appended. `App.TurnWalkthrough` drives a whole turn and proves this.
- **Most classifier branches never fire with this backend.** The classifier recognises the tags `generate_query`, `web_research`, `reflection` and `finalize_answer`. The graph's nodes are named `create_queries`, `web_research`, `reflection` and `generate_answer`. With this backend, therefore, only the web-research and reflection branches can fire, and `finalizedEvent` is never set. The classifier is modelled over its own four tags.

## Model

| member | source | states |
|---|---|---|
| Strings.Join | frontend/src/App.tsx:48 | joining no parts gives "", one part gives that part, and the first part always starts the result |
| Strings.JoinSnoc | frontend/src/App.tsx:48 | each further part follows the join so far after one separator, so the parts appear in order with `sep` between consecutive ones |
| Strings.JoinEmptyOnlyIfFirstEmpty | frontend/src/App.tsx:48-53 | a join whose first part is non-empty is non-empty |
| Strings.Take | frontend/src/App.tsx:48 | `slice(0, n)` is the prefix of length min(n, length) |
| Strings.FirstIndex | backend/src/agent/utils.py:37-38 | the index returned holds the element and no earlier index does |
| Strings.FirstIndexPrefix | backend/src/agent/utils.py:37-38 | the first occurrence within a prefix is the first occurrence in the whole |
| Strings.FirstIndexOfNew | backend/src/agent/utils.py:37-38 | an element not seen before position i first occurs at i |
| Strings.Dedup | frontend/src/App.tsx:45-47 | `[...new Set(xs)]` has exactly the elements of xs, without duplicates |
| Strings.DedupFirstSeenOrder | frontend/src/App.tsx:45-47 | de-duplicated elements appear in the order of their first occurrences |
| Strings.DedupSnoc | frontend/src/App.tsx:45-47 | adding an element extends the de-duplicated sequence only if the element is new |
| Strings.TrimStart | frontend/src/components/InputForm.tsx:23 | the result is a suffix, the dropped part is whitespace, and the result does not start with whitespace |
| Strings.TrimEnd | frontend/src/components/InputForm.tsx:23 | the result is a prefix, the dropped part is whitespace, and the result does not end with whitespace |
| Strings.Trim | frontend/src/components/InputForm.tsx:23 | `trim()` gives a text no longer than the input that is empty or neither starts nor ends with whitespace |
| Strings.TrimIsMiddle | frontend/src/components/InputForm.tsx:23 | `trim()` is a contiguous middle piece of the input, and everything before and after it is whitespace |
| Strings.TrimEmptyIffBlank | frontend/src/components/InputForm.tsx:23 | `trim()` gives "" exactly when every character is ECMAScript whitespace |
| Strings.Utf16Length | frontend/src/components/InputForm.tsx:27 | `length` counts UTF-16 code units: between one and two per character |
| Strings.Utf16LengthSnoc | frontend/src/components/InputForm.tsx:27 | each further character adds two code units when above U+FFFF and one otherwise |
| Strings.Utf16LengthBmp | frontend/src/components/InputForm.tsx:27 | on Basic Multilingual Plane text, `length` is the number of characters |
| Strings.Contains | backend/src/agent/graph.py:145 | Python `p in s` holds exactly when some index of s starts an occurrence of p; the empty pattern occurs everywhere |
| Strings.InsertEverywhere | backend/src/agent/graph.py:146-148 | `replace` with an empty pattern on an empty text gives the replacement alone, and yields length + (length + 1) × replacement-length characters |
| Strings.InsertEverywhereSnoc | backend/src/agent/graph.py:146-148 | with an empty pattern, one more character of the text is followed by one more copy of the replacement at the end: a copy sits before each character and after the last |
| Strings.ReplaceAll | backend/src/agent/graph.py:146-148 | `str.replace`: an empty pattern inserts the replacement everywhere; a text starting with the pattern starts with the replacement; an equal-length replacement keeps the length |
| Strings.ReplaceAbsent | backend/src/agent/graph.py:145-148 | replacing a pattern that does not occur leaves the text unchanged |
| Strings.ReplaceAtFirst | backend/src/agent/graph.py:146-148 | with a non-empty pattern, the text before its first occurrence is kept, that occurrence becomes the replacement, and replacing continues just after it: every non-overlapping occurrence, left to right |
| Strings.ReplaceClearPrefix | backend/src/agent/graph.py:146-148 | text in which no occurrence of the pattern starts is copied unchanged |
| Strings.BeforeFirst | backend/src/agent/utils.py:42 | `split(c)[0]` is a prefix without c that is either the whole text or followed by c |
| Strings.DigitChar | frontend/src/App.tsx:51 | a digit below 10 renders as the decimal character with that value |
| Strings.NatToString | frontend/src/App.tsx:51 | a number renders as a non-empty string of digits without a leading zero |
| Strings.NatToStringRoundTrip | backend/src/agent/utils.py:38 | reading the rendered digits back gives the number |
| Strings.NatToStringInjective | backend/src/agent/utils.py:38 | distinct numbers render differently |
| Strings.IntToString | backend/src/agent/utils.py:38 | an f-string int is its digits, with a minus sign when negative |
| App.QueriesData | frontend/src/App.tsx:38 | an absent query list gives ""; a present one gives its queries joined with ", " |
| App.TruthyLabels | frontend/src/App.tsx:46 | the filtered labels are non-empty and at most one per source |
| App.TruthyLabelsSnoc | frontend/src/App.tsx:46 | a further source extends the filtered labels at the end by its own truthy label, so the labels keep source order |
| App.TruthyLabelsMembership | frontend/src/App.tsx:46 | a label survives `filter(Boolean)` exactly when it is non-empty and some source at some index carries it as its label |
| App.ShownLabels | frontend/src/App.tsx:45-48 | the shown labels are the first min(3, n) of the n distinct truthy labels in first-seen order; they are distinct truthy labels; none are shown exactly when there are none |
| App.WebResearchData | frontend/src/App.tsx:42-55 | the sentence counts every gathered source, labelled or not, and names the shown labels joined with ", ", or "N/A" exactly when no source has a truthy label |
| App.ProcessAgentEvent | frontend/src/App.tsx:34-73 | null exactly when no recognised tag is present; otherwise the first tag in priority order decides the entry: "Generating Search Queries" with the joined queries, "Web Research" with the summary sentence of the gathered sources (none when absent), "Reflection" with "Analyzing research results", or "Finalizing Answer" with "Composing and presenting the final answer." |
| App.RaisesFinalize | frontend/src/App.tsx:64-66 | the flag is raised exactly when the event is classified as the finalize entry, which needs the finalize tag |
| App.TagTitleInjective | frontend/src/App.tsx:35-70 | the four titles are distinct, so the title identifies the deciding tag |
| App.LaterTagsIgnored | frontend/src/App.tsx:34-73 | events agreeing on the first present tag and its payload classify alike |
| App.WebResearchNoLabels | frontend/src/App.tsx:48-53 | the label list is empty, and "N/A" is used, exactly when no source has a truthy label |
| App.ExampleTruthyLabels | frontend/src/App.tsx:46 | sources labelled a, a, b, c, d keep all five labels in order |
| App.NoSourcesSentence | frontend/src/App.tsx:42-55 | a web-research update without sources gives "Gathered 0 sources. Related to: N/A." |
| App.ExampleDedupPrefix | frontend/src/App.tsx:45-47 | a, a, b de-duplicates to a, b |
| App.ExampleDedup | frontend/src/App.tsx:45-47 | a, a, b, c, d de-duplicates to a, b, c, d |
| App.ExampleShownLabels | frontend/src/App.tsx:45-48 | of labels a, a, b, c, d, the three shown are a, b, c |
| App.ExampleJoin | frontend/src/App.tsx:48 | a, b, c join to "a, b, c" |
| App.ExampleSentenceText | frontend/src/App.tsx:49-54 | count 5 and labels a, b, c fill the template as "Gathered 5 sources. Related to: a, b, c." |
| App.ExampleSentence | frontend/src/App.tsx:49-54 | five sources showing a, b, c give "Gathered 5 sources. Related to: a, b, c." |
| App.WebResearchExample | frontend/src/App.tsx:42-55 | the sentence for five sources labelled a, a, b, c, d |
| App.StreamErrorText | frontend/src/App.tsx:76-84 | the two codes map to their fixed texts; for any other code, a non-empty message of the error is shown as is, else the fallback text; never empty |
| App.GetEffortConfig | frontend/src/App.tsx:87-94 | low gives (1, 1), medium gives (3, 3), high gives (5, 10) |
| App.EffortTableExact | frontend/src/App.tsx:87-94 | only these three entries occur, and no two levels share one |
| App.ToPayloadMessages | frontend/src/App.tsx:120-123 | one entry per message with its content; the role is "user" exactly for human messages and "assistant" otherwise |
| App.BuildPayload | frontend/src/App.tsx:116-126 | the payload carries the transcript entries and the effort table's query and loop counts |
| App.ReplaceContent | frontend/src/App.tsx:167-171 | same length; ids and roles kept; messages with the id get the new content; all others unchanged |
| App.ReplaceContentIdempotent | frontend/src/App.tsx:167-171 | overwriting with the same content twice equals once |
| App.ReplaceContentLastWins | frontend/src/App.tsx:167-171 | of two overwrites, the last wins |
| App.AppendKeepsAiIds | frontend/src/App.tsx:109 | appending a message keeps every ai message id present |
| App.ReplaceKeepsAiIds | frontend/src/App.tsx:167-171 | overwriting content keeps every ai message id present |
| App.Reconciler.constructor | frontend/src/App.tsx:8-13 | empty transcript, timeline and archive; no error, no streaming id; flag down |
| App.Reconciler.Submit | frontend/src/App.tsx:97-129 | error cleared; one human message appended; timeline and streaming id cleared; archive and flag kept; payload built from the extended transcript and the effort table |
| App.Reconciler.OnUpdateEvent | frontend/src/App.tsx:20-26 | the classified entry, if any, is appended at the end of the timeline; the flag rises only for the finalize entry |
| App.Reconciler.OnStreamError | frontend/src/App.tsx:27-30 | the error becomes the mapped text |
| App.Reconciler.OnThreadUpdate | frontend/src/App.tsx:143-186 | no change unless the latest thread message is ai; with no streaming id, one ai message is appended and its id becomes the streaming id; otherwise that message's content is overwritten; when idle with a non-empty timeline, the timeline is archived under the streaming id (other keys kept) and cleared; the invariant that ids name ai messages is kept |
| App.StartTurn | frontend/src/App.tsx:97-129 | a submit followed by a query event and a source-less web-research event leaves one human message and the timeline "Generating Search Queries"/"x", then "Web Research"/"Gathered 0 sources. Related to: N/A." |
| App.StreamTurn | frontend/src/App.tsx:143-173 | a streamed answer creates one ai message, later versions overwrite it, and the finalize event appends "Finalizing Answer" as the third entry and raises the flag |
| App.TurnWalkthrough | frontend/src/App.tsx:176-186 | going idle archives the turn's three entries, in arrival order, under the answer's id and clears the timeline; the re-run that follows appends the answer again under a new id, which becomes the streaming id |
| InputForm.EffortConfigTable | frontend/src/components/InputForm.tsx:16-20 | the form's own table: low (1, 1), medium (3, 3), high (5, 10) |
| InputForm.EffortTablesAgree | frontend/src/components/InputForm.tsx:16-20 | the form's table equals the component's table entry for entry |
| InputForm.ValidateInput | frontend/src/components/InputForm.tsx:22-32 | a rejection always carries a non-empty error text |
| InputForm.ValidateAcceptsIff | frontend/src/components/InputForm.tsx:22-32 | accepted exactly when non-blank and at most 2000 UTF-16 code units |
| InputForm.ValidateBlankIsEmpty | frontend/src/components/InputForm.tsx:23-29 | blank text is reported as empty, whatever its length |
| InputForm.ValidateLength | frontend/src/components/InputForm.tsx:27-31 | non-blank text over 2000 units is too long; exactly 2000 is accepted |
| InputForm.ErrorText | frontend/src/components/InputForm.tsx:44 | the validator's non-empty error text is shown as is |
| InputForm.Form.constructor | frontend/src/components/InputForm.tsx:35-37 | empty message, effort medium, no error |
| InputForm.Form.SetMessage | frontend/src/components/InputForm.tsx:68 | the message becomes the typed text |
| InputForm.Form.SetEffort | frontend/src/components/InputForm.tsx:87 | the effort becomes the selected level |
| InputForm.Form.HandleSubmit | frontend/src/components/InputForm.tsx:39-51 | invalid: error set, nothing submitted, text kept; valid: error cleared, the text and effort submitted once, text emptied; effort never changes |
| AgentUtils.GetResearchTopic | backend/src/agent/utils.py:10-24 | one message gives its content verbatim; otherwise the transcript of human and AI lines in order |
| AgentUtils.TranscriptSnoc | backend/src/agent/utils.py:19-23 | each further message appends its own line |
| AgentUtils.Conversation | backend/src/agent/utils.py:20-23 | a message is in the conversation exactly when it is a human or AI message of the input; no other kind remains |
| AgentUtils.ConversationSnoc | backend/src/agent/utils.py:20-23 | a further message extends the conversation at its end unless it is of another kind, so order is kept |
| AgentUtils.TranscriptIgnoresOther | backend/src/agent/utils.py:19-23 | messages of other kinds contribute nothing |
| AgentUtils.TranscriptOfExchange | backend/src/agent/utils.py:17-24 | a question and an answer give "User: q\nAssistant: a\n" |
| AgentUtils.Uris | backend/src/agent/utils.py:35 | the chunks' URIs in order |
| AgentUtils.ShortUrl | backend/src/agent/utils.py:38 | a short URL starts with the fixed prefix and ends with the last decimal digit of the index |
| AgentUtils.ResolvedEntry | backend/src/agent/utils.py:40-50 | a chunk's entry has one segment, carrying the chunk's label and URI and a short URL under the prefix |
| AgentUtils.ShortUrlInjective | backend/src/agent/utils.py:38 | within one call, equal short URLs mean equal indices |
| AgentUtils.SegmentLabel | backend/src/agent/utils.py:41-45 | a present, non-empty title gives the text before its first "."; otherwise "Source i" |
| AgentUtils.SeenStep | backend/src/agent/utils.py:37-38 | one update keeps the table exact: the URIs seen so far, each mapped to its first index's short URL and never overwritten |
| AgentUtils.ResolveUrls | backend/src/agent/utils.py:27-52 | one entry per chunk, in order, each holding the single segment of its chunk |
| AgentUtils.ResolveChunk | backend/src/agent/utils.py:35-50 | one iteration produces the chunk's entry and extends the table by at most its URI |
| AgentUtils.ShortUrlFromTable | backend/src/agent/utils.py:37-46 | once `seen_urls` covers a chunk it holds that chunk's URI, mapped to the short URL of the chunk's entry |
| AgentUtils.ShortUrlSharedIff | backend/src/agent/utils.py:37-46 | two chunks share a short URL exactly when they share a URI |
| AgentUtils.ShortUrlNamesFirstOccurrence | backend/src/agent/utils.py:37-46 | a short URL carries the index of the first chunk with that URI |
| AgentGraph.ContinueToWebResearch | backend/src/agent/graph.py:45-50 | one dispatch per query, in order, numbered 0 to n-1, each carrying its query |
| AgentGraph.FlattenSnoc | backend/src/agent/graph.py:73-75 | flattening one more resolved entry appends exactly its segments after those of the earlier entries |
| AgentGraph.FlattenSingletons | backend/src/agent/graph.py:73-75 | flattening one-segment entries keeps one segment per entry, in order |
| AgentGraph.WebResearch | backend/src/agent/graph.py:69-81 | one gathered source per chunk, in order, with its resolved segment; the query and the text each wrapped in a list |
| AgentGraph.LoopCountAfterIs | backend/src/agent/graph.py:86 | each reflection adds exactly one, counting from 0 when absent |
| AgentGraph.NextLoopCount | backend/src/agent/graph.py:86 | the new count is the stored one, or 0 when absent, plus one |
| AgentGraph.ResearchState.constructor | backend/src/agent/graph.py:84-86 | the state holds the given loop count and queries |
| AgentGraph.ResearchState.Reflection | backend/src/agent/graph.py:84-107 | the stored count becomes the old one plus one (1 when absent); the verdict, the new count and the number of queries run are reported |
| AgentGraph.EffectiveMaxLoops | backend/src/agent/graph.py:112-114 | the bound is the state's `max_research_loops` when present, otherwise the configuration's |
| AgentGraph.EvaluateResearch | backend/src/agent/graph.py:110-124 | answer exactly when sufficient or the count reaches the bound (from the state when present, else the configuration); otherwise one dispatch per follow-up query with id ran + i |
| AgentGraph.FollowUpIdsFresh | backend/src/agent/graph.py:118-124 | follow-up ids are distinct and differ from every first-round id |
| AgentGraph.ResearchLoopStops | backend/src/agent/graph.py:112-117 | the reflection that brings the count to the bound routes to the answer, whatever the verdict |
| AgentGraph.Cite | backend/src/agent/graph.py:143-149 | the citation pass as written keeps at most as many sources as were gathered, each one of them |
| AgentGraph.GenerateAnswerNode | backend/src/agent/graph.py:143-154 | the answer text and the kept sources are those of the citation pass |
| AgentGraph.CiteTextIsReplaceEach | backend/src/agent/graph.py:144-148 | the final text is that of replacing every source's short URL in turn; the occurrence test never changes the text |
| AgentGraph.CiteKeepsOrder | backend/src/agent/graph.py:143-149 | the kept sources are a subsequence of the gathered ones |
| AgentGraph.CiteFirstKept | backend/src/agent/graph.py:144-149 | the first kept source is the first whose short URL occurs in the model's answer |
| AgentGraph.CiteNoCitations | backend/src/agent/graph.py:144-153 | an answer citing no short URL comes back unchanged with no sources |
| AgentGraph.ReplaceEachSnoc | backend/src/agent/graph.py:144-148 | replacing one more short URL continues from the text the earlier replacements left |
| AgentGraph.CiteSuffix | backend/src/agent/graph.py:143-149 | the pass over the sources from k on, started from the text the earlier sources left, keeps exactly the positional selection from k |
| AgentGraph.CiteKeepsCitedByPosition | backend/src/agent/graph.py:143-149 | the kept sources are exactly, in order, those whose short URL occurs in the answer as rewritten by the replacements of all earlier sources |
| AgentGraph.ShortUrlExtends | backend/src/agent/utils.py:38 | the short URL of chunk 10i + d is that of chunk i plus one digit |
| AgentGraph.DistinctUrisOwnShortUrl | backend/src/agent/utils.py:37-38 | with distinct URIs, each chunk's short URL carries its own index |
| AgentGraph.GatheredShortUrlsClash | backend/src/agent/graph.py:69-75 | eleven or more distinct chunks gather two sources whose short URLs are prefix-related |
| AgentGraph.CitePrefixClash | backend/src/agent/graph.py:144-149 | an answer citing chunk 10i + d keeps chunk i instead and turns the citation into chunk i's URL plus a digit |
| AgentGraph.LongestCitation | backend/src/agent/graph.py:145 | the chosen source's short URL starts the text and no source's longer one does |
| AgentGraph.KeepCited | backend/src/agent/graph.py:149 | kept sources are gathered sources whose short URL was replaced; none when nothing was replaced |
| AgentGraph.KeepCitedFirst | backend/src/agent/graph.py:149 | a replaced short URL keeps at least one source |
| AgentGraph.CorrectedExactCitation | backend/src/agent/graph.py:143-149 | corrected: an answer that is one short URL becomes that source's URL, and only such sources are kept |
| AgentGraph.CorrectedPrefixClash | backend/src/agent/graph.py:143-149 | corrected: on the clashing pair, the cited source alone is kept and the citation becomes its URL |
| AgentGraph.CorrectedNoCitations | backend/src/agent/graph.py:143-153 | corrected: an answer citing no short URL comes back unchanged with no sources |

## Findings

| source | as written | input that shows it | evidently intended | confidence | as-written member | corrected member |
|---|---|---|---|---|---|---|
| backend/src/agent/graph.py:144-149 | the citation loop tests with a substring check and replaces all occurrences, but short URLs of one call are not prefix-free | eleven or more grounding chunks with distinct URIs; the answer cites only `…/id/0-10`, which contains `…/id/0-1` | each cited short URL resolves to its own source's URL, and only cited sources are kept | medium, not executed; the answer contains short URLs only if the model writes them | AgentGraph.CitePrefixClash | AgentGraph.CorrectedPrefixClash |

`AgentGraph.GenerateAnswerNode` and `AgentGraph.Cite` model the loop as written. `AgentGraph.CiteCorrected` replaces, in one left-to-right scan, the longest short URL starting at each position. `AgentGraph.CorrectedExactCitation` and `AgentGraph.CorrectedNoCitations` state its intended behaviour.

## Left out

- Rendering, scrolling and the other presentation components: the model is about state, not display.
- The `useStream` SDK and its transport: the thread's messages and loading flag are parameters of `OnThreadUpdate`.
- Clock and timestamps: `Date.now()` is a `now` parameter. The `timestamp` field of messages is not modelled.
- Interleaving of pending React updates, StrictMode double invocation of updaters, and stale closures of the memoised `handleSubmit`. Each state update is one atomic method call on the latest state.
- App.Reconciler.Submit: the payload is built from the transcript at the time of the call. The memoised handler may hold an older transcript, which this model does not capture.
- App.Reconciler.OnThreadUpdate: non-string ai content, which the code serialises as JSON, is not modelled; thread content is a string.
- The `console` logging in the stream callbacks: it has no effect on the state.
- The form's text area `maxLength` and the disabled submit button: they limit what reaches the handler in a browser. `HandleSubmit` models the handler on any text, which the keyboard shortcut also reaches.
- App.ProcessAgentEvent: payloads other than a missing value are treated as present. JavaScript truthiness of an empty object or a zero is not distinguished, and `sources_gathered` is either absent or a list.
- The language-model and search calls, prompts and `get_current_date`: their results are inputs.
- The LangGraph builder wiring and state reducers, `create_queries`, and `cli_research.py`.
- AgentGraph.EvaluateResearch: the configuration's bound is an integer parameter. Reading `max_research_loops` as an attribute of a LangGraph configuration mapping would fail at run time, and that failure is not modelled.
- AgentGraph.ResearchState.Reflection: the count is written into the node's input state and reported in the result. How the graph merges the two is left out.
- AgentUtils.ResolveUrls: chunks are records with a URI and an optional title. The `hasattr` test and falsy titles other than the empty string fold into "absent or empty".
- AgentGraph.CiteCorrected: it is a reference for the intended citation behaviour. `AgentGraph.GenerateAnswerNode` keeps the code as written.
