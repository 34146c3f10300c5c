/** The chat client's streaming session reconciler (frontend/src/App.tsx):
    the event classifier, the stream-error texts, the effort table, and the
    `App` component's state with its four update steps (submit, stream event,
    thread update, stream error). */
module App {
  import opened Types
  import opened Strings

  // ===========================================================================
  // Agent stream events and their classification

  /** Payload of a `generate_query` update: the optional `search_query` list. */
  datatype GenerateQueryUpdate = GenerateQueryUpdate(searchQuery: Option<seq<string>>)

  /** One element of `sources_gathered`; the classifier reads only its `label` (here `sourceLabel`)
      (`None` when the label is absent or null). */
  datatype GatheredSource = GatheredSource(sourceLabel: Option<string>)

  /** Payload of a `web_research` update: the optional `sources_gathered` list. */
  datatype WebResearchUpdate = WebResearchUpdate(sourcesGathered: Option<seq<GatheredSource>>)

  /** One raw stream update. A tag whose payload is absent or falsy is `None`
      (or `false`); the `reflection` and `finalize_answer` payloads are never read. */
  datatype AgentEvent = AgentEvent(
    generateQuery: Option<GenerateQueryUpdate>,
    webResearch: Option<WebResearchUpdate>,
    reflection: bool,
    finalizeAnswer: bool)

  /** The graph nodes the classifier recognises, in the order it tests them. */
  datatype Tag = GenerateQueryTag | WebResearchTag | ReflectionTag | FinalizeAnswerTag

  function TagTitle(t: Tag): string
  {
    match t
    case GenerateQueryTag => "Generating Search Queries"
    case WebResearchTag => "Web Research"
    case ReflectionTag => "Reflection"
    case FinalizeAnswerTag => "Finalizing Answer"
  }

  const ReflectionData := "Analyzing research results"
  const FinalizeData := "Composing and presenting the final answer."

  /** The first recognised tag present on the event, in the classifier's priority order. */
  function FirstTag(e: AgentEvent): Option<Tag>
  {
    if e.generateQuery.Some? then Some(GenerateQueryTag)
    else if e.webResearch.Some? then Some(WebResearchTag)
    else if e.reflection then Some(ReflectionTag)
    else if e.finalizeAnswer then Some(FinalizeAnswerTag)
    else None
  }

  /** `search_query?.join(", ") || ""`. */
  function QueriesData(searchQuery: Option<seq<string>>): (data: string)
    ensures searchQuery.None? ==> data == ""
    ensures searchQuery.Some? ==> data == Join(searchQuery.value, ", ")
  {
    match searchQuery
    case None => ""
    case Some(qs) => Join(qs, ", ")
  }

  /** What one source contributes to `filter(Boolean)`: its label when present and non-empty. */
  function LabelOf(source: GatheredSource): seq<string>
  {
    match source.sourceLabel
    case Some(l) => if l != "" then [l] else []
    case None => []
  }

  /** `sources.map(s => s.label).filter(Boolean)`: the labels present and
      non-empty, in source order. */
  function TruthyLabels(sources: seq<GatheredSource>): (labels: seq<string>)
    ensures |labels| <= |sources|
    ensures forall i :: 0 <= i < |labels| ==> labels[i] != ""
  {
    if |sources| == 0 then [] else LabelOf(sources[0]) + TruthyLabels(sources[1..])
  }

  /** A further source extends the filtered labels by its own truthy label, at the end. */
  lemma {:induction false} TruthyLabelsSnoc(sources: seq<GatheredSource>, x: GatheredSource)
    ensures TruthyLabels(sources + [x]) == TruthyLabels(sources) + LabelOf(x)
  {
    var extended := sources + [x];
    if |sources| == 0 {
      assert extended == [x] && extended[1..] == [];
      assert TruthyLabels(extended) == LabelOf(x) + TruthyLabels([]);
    } else {
      assert extended[0] == sources[0] && extended[1..] == sources[1..] + [x];
      TruthyLabelsSnoc(sources[1..], x);
      calc {
        TruthyLabels(extended);
        LabelOf(sources[0]) + TruthyLabels(sources[1..] + [x]);
        LabelOf(sources[0]) + (TruthyLabels(sources[1..]) + LabelOf(x));
        (LabelOf(sources[0]) + TruthyLabels(sources[1..])) + LabelOf(x);
      }
    }
  }

  /** A label survives the filter exactly when it is non-empty and some source carries it. */
  lemma {:induction false} TruthyLabelsMembership(sources: seq<GatheredSource>, l: string)
    ensures l in TruthyLabels(sources) <==>
              l != "" && exists i :: 0 <= i < |sources| && sources[i].sourceLabel == Some(l)
  {
    if |sources| > 0 {
      TruthyLabelsMembership(sources[1..], l);
      assert forall i :: 1 <= i < |sources| ==> sources[1..][i - 1] == sources[i];
    }
  }

  /** The labels the web-research summary names: the distinct truthy labels in
      the order first seen, at most three; when fewer than three are shown,
      every truthy label is among them. */
  function ShownLabels(sources: seq<GatheredSource>): (shown: seq<string>)
    ensures |shown| <= 3
    ensures NoDuplicates(shown)
    ensures forall i :: 0 <= i < |shown| ==> shown[i] in TruthyLabels(sources)
    ensures |shown| < 3 ==> forall l :: l in TruthyLabels(sources) ==> l in shown
    ensures |shown| == 0 <==> TruthyLabels(sources) == []
    ensures |shown| == if |Dedup(TruthyLabels(sources))| < 3 then |Dedup(TruthyLabels(sources))| else 3
    ensures shown == Dedup(TruthyLabels(sources))[..|shown|]
  {
    var labels := TruthyLabels(sources);
    var distinct := Dedup(labels);
    var shown := Take(distinct, 3);
    assert forall l :: l in shown ==> l in distinct;
    assert labels != [] ==> labels[0] in distinct;
    shown
  }

  /** The `data` sentence of a `web_research` entry: it counts every gathered
      source, labelled or not, and names the shown labels, or "N/A" when no
      source has a truthy label. */
  function WebResearchData(sources: seq<GatheredSource>): (text: string)
    ensures text == Sentence(NatToString(|sources|),
                             if TruthyLabels(sources) == [] then "N/A" else Join(ShownLabels(sources), ", "))
  {
    WebResearchNoLabels(sources);
    var exampleLabels := Join(ShownLabels(sources), ", ");
    Sentence(NatToString(|sources|), if exampleLabels == "" then "N/A" else exampleLabels)
  }

  /** The template of that sentence. */
  function Sentence(count: string, labels: string): string
  {
    "Gathered " + count + " sources. Related to: " + labels + "."
  }

  /** `sources_gathered || []`. */
  function GatheredOrEmpty(u: WebResearchUpdate): seq<GatheredSource>
  {
    match u.sourcesGathered
    case Some(s) => s
    case None => []
  }

  /** `processAgentEvent`: at most one timeline entry for a stream update,
      decided by the first recognised tag, with that tag's title and data. */
  function ProcessAgentEvent(e: AgentEvent): (entry: Option<ProcessedEvent>)
    ensures entry.None? <==> FirstTag(e).None?
    ensures entry.Some? ==> entry.value.title == TagTitle(FirstTag(e).value)
    ensures FirstTag(e) == Some(GenerateQueryTag) ==>
              entry == Some(ProcessedEvent("Generating Search Queries", QueriesData(e.generateQuery.value.searchQuery)))
    ensures FirstTag(e) == Some(WebResearchTag) ==>
              entry == Some(ProcessedEvent("Web Research", WebResearchData(GatheredOrEmpty(e.webResearch.value))))
    ensures FirstTag(e) == Some(ReflectionTag) ==>
              entry == Some(ProcessedEvent("Reflection", "Analyzing research results"))
    ensures FirstTag(e) == Some(FinalizeAnswerTag) ==>
              entry == Some(ProcessedEvent("Finalizing Answer", "Composing and presenting the final answer."))
  {
    if e.generateQuery.Some? then
      Some(ProcessedEvent(TagTitle(GenerateQueryTag), QueriesData(e.generateQuery.value.searchQuery)))
    else if e.webResearch.Some? then
      Some(ProcessedEvent(TagTitle(WebResearchTag), WebResearchData(GatheredOrEmpty(e.webResearch.value))))
    else if e.reflection then
      Some(ProcessedEvent(TagTitle(ReflectionTag), ReflectionData))
    else if e.finalizeAnswer then
      Some(ProcessedEvent(TagTitle(FinalizeAnswerTag), FinalizeData))
    else None
  }

  /** Whether classifying `e` sets the `finalizedEvent` flag: exactly when the
      event is classified as the finalize entry. */
  function RaisesFinalize(e: AgentEvent): (raised: bool)
    ensures raised <==> ProcessAgentEvent(e) == Some(ProcessedEvent(TagTitle(FinalizeAnswerTag), FinalizeData))
    ensures raised ==> e.finalizeAnswer
  {
    FirstTag(e) == Some(FinalizeAnswerTag)
  }

  /** Distinct tags give distinct entry titles, so the title tells which tag decided. */
  lemma TagTitleInjective(s: Tag, t: Tag)
    requires TagTitle(s) == TagTitle(t)
    ensures s == t
  {
    match s
    case GenerateQueryTag => assert TagTitle(s)[0] == 'G';
    case WebResearchTag => assert TagTitle(s)[0] == 'W';
    case ReflectionTag => assert TagTitle(s)[0] == 'R';
    case FinalizeAnswerTag => assert TagTitle(s)[0] == 'F';
  }

  /** Tags after the first present one are never looked at: two events that
      agree on their first tag and on its payload classify alike. */
  lemma LaterTagsIgnored(e1: AgentEvent, e2: AgentEvent)
    requires FirstTag(e1) == FirstTag(e2)
    requires FirstTag(e1) == Some(GenerateQueryTag) ==> e1.generateQuery == e2.generateQuery
    requires FirstTag(e1) == Some(WebResearchTag) ==> e1.webResearch == e2.webResearch
    ensures ProcessAgentEvent(e1) == ProcessAgentEvent(e2)
    ensures RaisesFinalize(e1) == RaisesFinalize(e2)
  {
  }

  /** The summary says "N/A" exactly when no source has a truthy label. */
  lemma WebResearchNoLabels(sources: seq<GatheredSource>)
    ensures Join(ShownLabels(sources), ", ") == "" <==> TruthyLabels(sources) == []
  {
    var shown := ShownLabels(sources);
    if shown != [] {
      assert shown[0] in TruthyLabels(sources);
      JoinEmptyOnlyIfFirstEmpty(shown, ", ");
    }
  }

  /** Labels of the five-source example below. */
  lemma {:induction false} ExampleTruthyLabels(a: GatheredSource, b: GatheredSource, c: GatheredSource, d: GatheredSource)
    requires a == GatheredSource(Some("a")) && b == GatheredSource(Some("b"))
    requires c == GatheredSource(Some("c")) && d == GatheredSource(Some("d"))
    ensures TruthyLabels([a, a, b, c, d]) == ["a", "a", "b", "c", "d"]
  {
    assert TruthyLabels([d]) == ["d"] by { assert [d][1..] == []; }
    assert TruthyLabels([c, d]) == ["c", "d"] by { assert [c, d][1..] == [d]; }
    assert TruthyLabels([b, c, d]) == ["b", "c", "d"] by { assert [b, c, d][1..] == [c, d]; }
    assert TruthyLabels([a, b, c, d]) == ["a", "b", "c", "d"] by { assert [a, b, c, d][1..] == [b, c, d]; }
    assert [a, a, b, c, d][1..] == [a, b, c, d];
  }

  /** A web-research update without sources gives the "N/A" sentence with a count of 0. */
  lemma NoSourcesSentence()
    ensures WebResearchData([]) == "Gathered 0 sources. Related to: N/A."
  {
    assert NatToString(0) == "0" by {
      assert DigitChar(0) == '0';
    }
    assert TruthyLabels([]) == [];
    assert Sentence("0", "N/A") == "Gathered 0 sources. Related to: N/A.";
  }

  /** De-duplication of a, a, b keeps a, b. */
  lemma ExampleDedupPrefix<T(!new)>(a: T, b: T)
    requires a != b
    ensures Dedup([a, a, b]) == [a, b]
  {
    assert Dedup([a]) == [a] by {
      DedupSnoc([], a);
      assert [] + [a] == [a];
    }
    assert Dedup([a, a]) == [a] by {
      DedupSnoc([a], a);
      assert [a] + [a] == [a, a];
    }
    DedupSnoc([a, a], b);
    assert [a, a] + [b] == [a, a, b];
  }

  /** De-duplication of a, a, b, c, d keeps a, b, c, d. */
  lemma ExampleDedup<T(!new)>(a: T, b: T, c: T, d: T)
    requires a != b && a != c && a != d && b != c && b != d && c != d
    ensures Dedup([a, a, b, c, d]) == [a, b, c, d]
  {
    ExampleDedupPrefix(a, b);
    assert Dedup([a, a, b, c]) == [a, b, c] by {
      DedupSnoc([a, a, b], c);
      assert [a, a, b] + [c] == [a, a, b, c];
    }
    DedupSnoc([a, a, b, c], d);
    assert [a, a, b, c] + [d] == [a, a, b, c, d];
  }

  lemma ExampleShownLabels()
    ensures ShownLabels([GatheredSource(Some("a")), GatheredSource(Some("a")),
                         GatheredSource(Some("b")), GatheredSource(Some("c")),
                         GatheredSource(Some("d"))]) == ["a", "b", "c"]
  {
    var a, b, c, d := GatheredSource(Some("a")), GatheredSource(Some("b")), GatheredSource(Some("c")), GatheredSource(Some("d"));
    ExampleTruthyLabels(a, b, c, d);
    ExampleDedup("a", "b", "c", "d");
    assert Take(["a", "b", "c", "d"], 3) == ["a", "b", "c"];
  }

  /** a, b, c join to "a, b, c". */
  lemma ExampleJoin()
    ensures Join(["a", "b", "c"], ", ") == "a, b, c"
  {
    assert ["a", "b", "c"][1..] == ["b", "c"];
    assert ["b", "c"][1..] == ["c"];
  }

  lemma ExampleSentenceText()
    ensures Sentence(NatToString(5), Join(["a", "b", "c"], ", ")) == "Gathered 5 sources. Related to: a, b, c."
  {
    ExampleJoin();
    assert NatToString(5) == "5" by {
      assert DigitChar(5) == '5';
    }
  }

  /** The sentence for five sources whose shown labels are a, b and c. */
  lemma ExampleSentence(sources: seq<GatheredSource>)
    requires |sources| == 5 && ShownLabels(sources) == ["a", "b", "c"]
    ensures WebResearchData(sources) == "Gathered 5 sources. Related to: a, b, c."
  {
    ExampleSentenceText();
    assert TruthyLabels(sources) != [];
  }

  /** Five sources labelled a, a, b, c, d: duplicates dropped, first seen kept, three shown. */
  lemma WebResearchExample()
    ensures WebResearchData([GatheredSource(Some("a")), GatheredSource(Some("a")),
                             GatheredSource(Some("b")), GatheredSource(Some("c")),
                             GatheredSource(Some("d"))])
            == "Gathered 5 sources. Related to: a, b, c."
  {
    ExampleShownLabels();
    ExampleSentence([GatheredSource(Some("a")), GatheredSource(Some("a")),
                     GatheredSource(Some("b")), GatheredSource(Some("c")),
                     GatheredSource(Some("d"))]);
  }

  // ===========================================================================
  // Stream errors

  /** The part of a stream error the handler reads (`None` when absent). */
  datatype StreamError = StreamError(code: Option<string>, message: Option<string>)

  const NetworkErrorText := "Connection lost. Please check your network and try again."
  const AgentErrorText := "Agent encountered an error. Please try again."
  const UnexpectedErrorText := "An unexpected error occurred."

  /** `handleStreamError`: the text shown for a stream error. It is never
      empty, and it is a fixed text unless the code is neither network nor agent,
      in which case it is the error's own message when that is non-empty. */
  function StreamErrorText(err: StreamError): (text: string)
    ensures text != ""
    ensures err.code == Some("NETWORK_ERROR") ==> text == NetworkErrorText
    ensures err.code == Some("AGENT_ERROR") ==> text == AgentErrorText
    ensures (text != NetworkErrorText && text != AgentErrorText && text != UnexpectedErrorText)
              ==> err.message == Some(text)
    ensures (err.code != Some("NETWORK_ERROR") && err.code != Some("AGENT_ERROR")
             && err.message.Some? && err.message.value != "") ==> text == err.message.value
    ensures (err.code != Some("NETWORK_ERROR") && err.code != Some("AGENT_ERROR"))
              ==> (text == UnexpectedErrorText <==>
                     (err.message.None? || err.message == Some("") || err.message == Some(UnexpectedErrorText)))
  {
    if err.code == Some("NETWORK_ERROR") then NetworkErrorText
    else if err.code == Some("AGENT_ERROR") then AgentErrorText
    else match err.message
      case Some(m) => if m != "" then m else UnexpectedErrorText
      case None => UnexpectedErrorText
  }

  // ===========================================================================
  // Effort table and the upstream payload

  /** `getEffortConfig`. */
  function GetEffortConfig(effort: EffortLevel): (c: EffortConfig)
    ensures effort == Low ==> c == EffortConfig(1, 1)
    ensures effort == Medium ==> c == EffortConfig(3, 3)
    ensures effort == High ==> c == EffortConfig(5, 10)
  {
    match effort
    case Low => EffortConfig(1, 1)
    case Medium => EffortConfig(3, 3)
    case High => EffortConfig(5, 10)
  }

  /** The table produces only its three entries, and no two levels share one. */
  lemma EffortTableExact(e1: EffortLevel, e2: EffortLevel)
    ensures GetEffortConfig(e1) in {EffortConfig(1, 1), EffortConfig(3, 3), EffortConfig(5, 10)}
    ensures GetEffortConfig(e1) == GetEffortConfig(e2) ==> e1 == e2
  {
  }

  /** A transcript entry as sent upstream. */
  datatype PayloadMessage = PayloadMessage(role: string, content: string)

  /** What `handleSubmit` passes to `thread.submit`. */
  datatype AgentPayload = AgentPayload(
    messages: seq<PayloadMessage>,
    initialSearchQueryCount: nat,
    maxResearchLoops: nat)

  function PayloadRole(role: Role): string
  {
    if role == Human then "user" else "assistant"
  }

  /** The transcript as role/content pairs: "user" for human messages,
      "assistant" for every other role. */
  function ToPayloadMessages(msgs: seq<Message>): (out: seq<PayloadMessage>)
    ensures |out| == |msgs|
    ensures forall i :: 0 <= i < |msgs| ==>
              out[i].content == msgs[i].content
              && (out[i].role == "user" <==> msgs[i].role == Human)
              && (out[i].role == "assistant" <==> msgs[i].role != Human)
  {
    seq(|msgs|, i requires 0 <= i < |msgs| => PayloadMessage(PayloadRole(msgs[i].role), msgs[i].content))
  }

  function BuildPayload(msgs: seq<Message>, effort: EffortLevel): (p: AgentPayload)
    ensures p.messages == ToPayloadMessages(msgs)
    ensures p.initialSearchQueryCount == GetEffortConfig(effort).queries
    ensures p.maxResearchLoops == GetEffortConfig(effort).loops
  {
    var config := GetEffortConfig(effort);
    AgentPayload(ToPayloadMessages(msgs), config.queries, config.loops)
  }

  // ===========================================================================
  // Transcript helpers

  /** `user-${Date.now()}` and `ai-${Date.now()}`, with the clock reading as a parameter. */
  function UserMessageId(now: nat): string { "user-" + NatToString(now) }
  function AiMessageId(now: nat): string { "ai-" + NatToString(now) }

  /** Some ai message of the transcript carries this id. */
  predicate IsAiMessageId(msgs: seq<Message>, id: string)
  {
    exists i :: 0 <= i < |msgs| && msgs[i].id == id && msgs[i].role == Ai
  }

  /** `prev.map(msg => msg.id === id ? {...msg, content} : msg)`: every message
      with that id gets the new content; nothing else changes. */
  function ReplaceContent(msgs: seq<Message>, id: string, content: string): (out: seq<Message>)
    ensures |out| == |msgs|
    ensures forall i :: 0 <= i < |msgs| ==> out[i].id == msgs[i].id && out[i].role == msgs[i].role
    ensures forall i :: 0 <= i < |msgs| && msgs[i].id != id ==> out[i] == msgs[i]
    ensures forall i :: 0 <= i < |msgs| && msgs[i].id == id ==> out[i].content == content
  {
    seq(|msgs|, i requires 0 <= i < |msgs| =>
      if msgs[i].id == id then msgs[i].(content := content) else msgs[i])
  }

  /** Overwriting with the same content twice is the same as once. */
  lemma ReplaceContentIdempotent(msgs: seq<Message>, id: string, content: string)
    ensures ReplaceContent(ReplaceContent(msgs, id, content), id, content) == ReplaceContent(msgs, id, content)
  {
  }

  /** Overwrites compose: the last content wins. */
  lemma ReplaceContentLastWins(msgs: seq<Message>, id: string, c1: string, c2: string)
    ensures ReplaceContent(ReplaceContent(msgs, id, c1), id, c2) == ReplaceContent(msgs, id, c2)
  {
  }

  lemma AppendKeepsAiIds(msgs: seq<Message>, m: Message, id: string)
    requires IsAiMessageId(msgs, id)
    ensures IsAiMessageId(msgs + [m], id)
  {
    var i :| 0 <= i < |msgs| && msgs[i].id == id && msgs[i].role == Ai;
    assert (msgs + [m])[i] == msgs[i];
  }

  lemma ReplaceKeepsAiIds(msgs: seq<Message>, target: string, content: string, id: string)
    requires IsAiMessageId(msgs, id)
    ensures IsAiMessageId(ReplaceContent(msgs, target, content), id)
  {
    var i :| 0 <= i < |msgs| && msgs[i].id == id && msgs[i].role == Ai;
    assert ReplaceContent(msgs, target, content)[i].id == id;
  }

  /** A message of the agent thread as the stream exposes it. */
  datatype ThreadMessage = ThreadMessage(role: Role, content: string)

  /** The effect acts only when the thread's latest message is an ai message. */
  predicate LatestIsAi(thread: seq<ThreadMessage>)
  {
    |thread| > 0 && thread[|thread| - 1].role == Ai
  }

  /** The archive test of the effect, on the values the render saw. */
  predicate ArchiveDue(isLoading: bool, timeline: seq<ProcessedEvent>, streamingId: Option<string>)
  {
    !isLoading && |timeline| > 0 && streamingId.Some?
  }

  // ===========================================================================
  // The App component's state

  class Reconciler {
    /** `messages`: the transcript shown to the user. */
    var messages: seq<Message>
    /** `processedEventsTimeline`: entries of the turn in flight. */
    var timeline: seq<ProcessedEvent>
    /** `historicalActivities`: archived timelines by ai message id. */
    var archive: map<string, seq<ProcessedEvent>>
    var error: Option<string>
    /** `currentStreamingMessageId`. */
    var streamingId: Option<string>
    /** The `finalizedEvent` ref: set by the classifier, never read or cleared. */
    var finalizedEvent: bool

    /** The streaming id and every archive key name an ai message of the transcript. */
    ghost predicate Valid()
      reads this
    {
      && (streamingId.Some? ==> streamingId.value != "" && IsAiMessageId(messages, streamingId.value))
      && (forall id :: id in archive ==> IsAiMessageId(messages, id))
    }

    constructor ()
      ensures Valid()
      ensures messages == [] && timeline == [] && archive == map[]
      ensures error == None && streamingId == None && !finalizedEvent
    {
      messages := [];
      timeline := [];
      archive := map[];
      error := None;
      streamingId := None;
      finalizedEvent := false;
    }

    /** `handleSubmit`: record the human message, start a fresh timeline and
        return what is sent upstream. The `finalizedEvent` flag is left as it is. */
    method Submit(content: string, effort: EffortLevel, now: nat) returns (payload: AgentPayload)
      requires Valid()
      modifies this
      ensures Valid()
      ensures error == None
      ensures messages == old(messages) + [Message(UserMessageId(now), Human, content)]
      ensures timeline == [] && streamingId == None
      ensures archive == old(archive) && finalizedEvent == old(finalizedEvent)
      ensures payload == BuildPayload(old(messages) + [Message(UserMessageId(now), Human, content)], effort)
    {
      error := None;
      var userMessage := Message(UserMessageId(now), Human, content);
      forall id | id in archive ensures IsAiMessageId(messages + [userMessage], id) {
        AppendKeepsAiIds(messages, userMessage, id);
      }
      var sent := messages + [userMessage];
      messages := sent;
      timeline := [];
      streamingId := None;
      var effortConfig := GetEffortConfig(effort);
      payload := AgentPayload(ToPayloadMessages(sent), effortConfig.queries, effortConfig.loops);
    }

    /** `onUpdateEvent`: append the classified entry, if any, at the end of the timeline. */
    method OnUpdateEvent(e: AgentEvent)
      requires Valid()
      modifies this`timeline, this`finalizedEvent
      ensures Valid()
      ensures timeline == old(timeline) + (if ProcessAgentEvent(e).Some? then [ProcessAgentEvent(e).value] else [])
      ensures finalizedEvent == (old(finalizedEvent) || RaisesFinalize(e))
    {
      var processed := ProcessAgentEvent(e);
      if RaisesFinalize(e) {
        finalizedEvent := true;
      }
      if processed.Some? {
        timeline := timeline + [processed.value];
      }
    }

    /** `onError`: show the error's text. */
    method OnStreamError(err: StreamError)
      modifies this`error
      ensures error == Some(StreamErrorText(err))
    {
      error := Some(StreamErrorText(err));
    }

    /** The effect on `thread.messages`, `thread.isLoading` and the timeline.
        When the thread's latest message is an ai message: with no streaming id,
        append a new ai message and make its id the streaming id; otherwise
        overwrite that message's content and, once the stream is idle with a
        non-empty timeline, archive the timeline under the streaming id. */
    method OnThreadUpdate(thread: seq<ThreadMessage>, isLoading: bool, now: nat)
      requires Valid()
      modifies this`messages, this`timeline, this`archive, this`streamingId
      ensures Valid()
      ensures !LatestIsAi(thread) ==>
        messages == old(messages) && timeline == old(timeline)
        && archive == old(archive) && streamingId == old(streamingId)
      ensures LatestIsAi(thread) && old(streamingId).None? ==>
        && messages == old(messages) + [Message(AiMessageId(now), Ai, thread[|thread| - 1].content)]
        && streamingId == Some(AiMessageId(now))
        && timeline == old(timeline) && archive == old(archive)
      ensures LatestIsAi(thread) && old(streamingId).Some? ==>
        messages == ReplaceContent(old(messages), old(streamingId).value, thread[|thread| - 1].content)
      ensures LatestIsAi(thread) && ArchiveDue(isLoading, old(timeline), old(streamingId)) ==>
        && archive == old(archive)[old(streamingId).value := old(timeline)]
        && timeline == [] && streamingId == None
      ensures LatestIsAi(thread) && old(streamingId).Some? && !ArchiveDue(isLoading, old(timeline), old(streamingId)) ==>
        archive == old(archive) && timeline == old(timeline) && streamingId == old(streamingId)
    {
      if |thread| > 0 {
        var latest := thread[|thread| - 1];
        if latest.role == Ai {
          var current := streamingId;
          if current.None? {
            var newId := AiMessageId(now);
            var aiMessage := Message(newId, Ai, latest.content);
            forall id | id in archive ensures IsAiMessageId(messages + [aiMessage], id) {
              AppendKeepsAiIds(messages, aiMessage, id);
            }
            assert (messages + [aiMessage])[|messages|] == aiMessage;
            messages := messages + [aiMessage];
            streamingId := Some(newId);
          } else {
            forall id | id in archive ensures IsAiMessageId(ReplaceContent(messages, current.value, latest.content), id) {
              ReplaceKeepsAiIds(messages, current.value, latest.content, id);
            }
            ReplaceKeepsAiIds(messages, current.value, latest.content, current.value);
            messages := ReplaceContent(messages, current.value, latest.content);
          }
          if !isLoading && |timeline| > 0 && current.Some? {
            archive := archive[current.value := timeline];
            timeline := [];
            streamingId := None;
          }
        }
      }
    }
  }

  /** The timeline entries of the example turn below, in the order its events arrive. */
  const QueriesEntry := ProcessedEvent("Generating Search Queries", "x")
  const NoSourcesEntry := ProcessedEvent("Web Research", "Gathered 0 sources. Related to: N/A.")
  const FinalizeEntry := ProcessedEvent("Finalizing Answer", "Composing and presenting the final answer.")

  /** The start of a turn: submit, then two classified events while no answer
      has streamed yet. */
  method StartTurn() returns (r: Reconciler)
    ensures fresh(r) && r.Valid()
    ensures r.messages == [Message(UserMessageId(1), Human, "What is X?")]
    ensures r.streamingId == None && r.archive == map[]
    ensures r.timeline == [QueriesEntry, NoSourcesEntry]
    ensures !r.finalizedEvent
  {
    r := new Reconciler();
    var payload := r.Submit("What is X?", Low, 1);
    assert payload.initialSearchQueryCount == 1 && payload.maxResearchLoops == 1;
    assert payload.messages == [PayloadMessage("user", "What is X?")];

    r.OnUpdateEvent(AgentEvent(Some(GenerateQueryUpdate(Some(["x"]))), None, false, false));
    NoSourcesSentence();
    r.OnUpdateEvent(AgentEvent(None, Some(WebResearchUpdate(None)), false, false));
  }

  /** The rest of the busy stream: the answer streamed in two versions, then
      the finalize event, which re-runs the effect. */
  method StreamTurn() returns (r: Reconciler)
    ensures fresh(r) && r.Valid()
    ensures r.messages == [Message(UserMessageId(1), Human, "What is X?"), Message(AiMessageId(2), Ai, "final")]
    ensures r.streamingId == Some(AiMessageId(2)) && r.archive == map[]
    ensures r.timeline == [QueriesEntry, NoSourcesEntry, FinalizeEntry]
    ensures r.finalizedEvent
  {
    r := StartTurn();
    var human := ThreadMessage(Human, "What is X?");
    r.OnThreadUpdate([human, ThreadMessage(Ai, "partial")], true, 2);
    assert r.streamingId == Some(AiMessageId(2));
    r.OnThreadUpdate([human, ThreadMessage(Ai, "final")], true, 3);

    r.OnUpdateEvent(AgentEvent(None, None, false, true));
    // The timeline changed, so the effect runs again.
    r.OnThreadUpdate([human, ThreadMessage(Ai, "final")], true, 4);
  }

  /** The end of that turn: once the stream is idle the archive receives the
      turn's three entries under the answer's id. Clearing the timeline re-runs
      the effect while the thread still ends with the answer, and that run,
      finding no streaming id, appends the answer a second time. */
  method TurnWalkthrough() returns (r: Reconciler)
    ensures AiMessageId(2) in r.archive
    ensures r.archive[AiMessageId(2)] == [QueriesEntry, NoSourcesEntry, FinalizeEntry]
    ensures r.timeline == [] && r.streamingId == Some(AiMessageId(6))
    ensures r.messages == [Message(UserMessageId(1), Human, "What is X?"),
                           Message(AiMessageId(2), Ai, "final"),
                           Message(AiMessageId(6), Ai, "final")]
  {
    r := StreamTurn();
    var thread := [ThreadMessage(Human, "What is X?"), ThreadMessage(Ai, "final")];
    var aiId := AiMessageId(2);

    r.OnThreadUpdate(thread, false, 5);
    assert r.messages == [Message(UserMessageId(1), Human, "What is X?"), Message(aiId, Ai, "final")];
    assert aiId in r.archive;
    assert r.timeline == [] && r.streamingId == None;

    r.OnThreadUpdate(thread, false, 6);
  }
}
