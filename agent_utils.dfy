/** The research agent's deterministic helpers (backend/src/agent/utils.py):
    the research-topic transcript and the short-URL citation table built from
    grounding chunks. */
module AgentUtils {
  import opened Types
  import opened Strings

  // ===========================================================================
  // get_research_topic

  /** A conversation message as LangChain types it: human, AI, or any other kind. */
  datatype LcMessage = HumanMessage(content: string) | AIMessage(content: string) | OtherMessage(content: string)

  /** What one message contributes to a multi-message topic. */
  function TranscriptLine(m: LcMessage): string
  {
    match m
    case HumanMessage(c) => "User: " + c + "\n"
    case AIMessage(c) => "Assistant: " + c + "\n"
    case OtherMessage(_) => ""
  }

  /** The lines of all messages, in order. */
  function Transcript(msgs: seq<LcMessage>): string
  {
    if |msgs| == 0 then "" else Transcript(msgs[..|msgs| - 1]) + TranscriptLine(msgs[|msgs| - 1])
  }

  /** A single message is the topic verbatim; otherwise the topic is the transcript. */
  function ResearchTopic(msgs: seq<LcMessage>): string
  {
    if |msgs| == 1 then msgs[0].content else Transcript(msgs)
  }

  /** `get_research_topic`. */
  method GetResearchTopic(messages: seq<LcMessage>) returns (topic: string)
    ensures topic == ResearchTopic(messages)
  {
    if |messages| == 1 {
      topic := messages[|messages| - 1].content;
    } else {
      topic := "";
      for i := 0 to |messages|
        invariant topic == Transcript(messages[..i])
      {
        PrefixSnoc(messages, i);
        TranscriptSnoc(messages[..i], messages[i]);
        match messages[i]
        case HumanMessage(c) =>
          topic := topic + ("User: " + c + "\n");
        case AIMessage(c) =>
          topic := topic + ("Assistant: " + c + "\n");
        case OtherMessage(_) =>
      }
      PrefixAll(messages);
    }
  }

  /** Appending a message appends its line to the transcript. */
  lemma TranscriptSnoc(msgs: seq<LcMessage>, m: LcMessage)
    ensures Transcript(msgs + [m]) == Transcript(msgs) + TranscriptLine(m)
  {
    assert (msgs + [m])[..|msgs|] == msgs;
  }

  /** The human and AI messages, in order. */
  function Conversation(msgs: seq<LcMessage>): (conv: seq<LcMessage>)
    ensures |conv| <= |msgs|
    ensures forall i :: 0 <= i < |conv| ==> !conv[i].OtherMessage?
    ensures forall m :: m in conv <==> m in msgs && !m.OtherMessage?
  {
    if |msgs| == 0 then []
    else
      var init := msgs[..|msgs| - 1];
      var last := msgs[|msgs| - 1];
      assert msgs == init + [last];
      if last.OtherMessage? then Conversation(init) else Conversation(init) + [last]
  }

  /** A further message extends the conversation at its end, unless it is of another kind. */
  lemma ConversationSnoc(msgs: seq<LcMessage>, m: LcMessage)
    ensures Conversation(msgs + [m]) == Conversation(msgs) + (if m.OtherMessage? then [] else [m])
  {
    assert (msgs + [m])[..|msgs|] == msgs;
  }

  /** Messages of other kinds contribute nothing to the transcript. */
  lemma {:induction false} TranscriptIgnoresOther(msgs: seq<LcMessage>)
    ensures Transcript(Conversation(msgs)) == Transcript(msgs)
  {
    if |msgs| > 0 {
      var init := msgs[..|msgs| - 1];
      var last := msgs[|msgs| - 1];
      TranscriptIgnoresOther(init);
      if !last.OtherMessage? {
        TranscriptSnoc(Conversation(init), last);
      }
    }
  }

  /** A transcript of one human message followed by one AI answer. */
  lemma TranscriptOfExchange(question: string, answer: string)
    ensures ResearchTopic([HumanMessage(question), AIMessage(answer)])
            == "User: " + question + "\n" + "Assistant: " + answer + "\n"
  {
    var msgs := [HumanMessage(question), AIMessage(answer)];
    assert msgs[..1] == [HumanMessage(question)];
    assert Transcript(msgs[..1]) == "User: " + question + "\n" by {
      assert msgs[..1][..0] == [];
    }
    assert Transcript(msgs) == Transcript(msgs[..1]) + "Assistant: " + answer + "\n";
  }

  // ===========================================================================
  // resolve_urls

  const VertexPrefix := "https://vertexaisearch.cloud.google.com/id/"

  /** `site.web` of a grounding chunk: its URI and its title, if it has one. */
  datatype WebChunk = WebChunk(uri: string, title: Option<string>)

  /** A citation segment: `label`, `short_url`, `value`. */
  datatype Segment = Segment(sourceLabel: string, shortUrl: string, value: string)

  /** One entry of `resolved_urls`. */
  datatype ResolvedUrl = ResolvedUrl(segments: seq<Segment>)

  function Uris(sites: seq<WebChunk>): (uris: seq<string>)
    ensures |uris| == |sites| && forall i :: 0 <= i < |sites| ==> uris[i] == sites[i].uri
  {
    seq(|sites|, i requires 0 <= i < |sites| => sites[i].uri)
  }

  /** `f"{prefix}{id}-{i}"`: the prefix, then the id, and the index's digits last. */
  function ShortUrl(id: int, i: nat): (u: string)
    ensures |u| > |VertexPrefix| + 2 && IsPrefix(VertexPrefix, u)
    ensures IsDigit(u[|u| - 1])
    ensures u[|u| - 1] == DigitChar(i % 10)
  {
    VertexPrefix + IntToString(id) + "-" + NatToString(i)
  }

  /** Two short URLs of one research call are equal only for equal indices. */
  lemma ShortUrlInjective(id: int, i: nat, j: nat)
    requires ShortUrl(id, i) == ShortUrl(id, j)
    ensures i == j
  {
    var head := VertexPrefix + IntToString(id) + "-";
    assert ShortUrl(id, i) == head + NatToString(i);
    assert ShortUrl(id, j) == head + NatToString(j);
    assert NatToString(i) == ShortUrl(id, i)[|head|..];
    assert NatToString(j) == ShortUrl(id, j)[|head|..];
    NatToStringInjective(i, j);
  }

  /** The title up to its first "." when the title is present and non-empty,
      otherwise "Source {i}". */
  function SegmentLabel(site: WebChunk, i: nat): (text: string)
    ensures site.title.Some? && site.title.value != "" ==>
              '.' !in text && IsPrefix(text, site.title.value)
              && (text == site.title.value || site.title.value[|text|] == '.')
    ensures !(site.title.Some? && site.title.value != "") ==> text == "Source " + NatToString(i)
  {
    match site.title
    case Some(t) => if t != "" then BeforeFirst(t, '.') else "Source " + NatToString(i)
    case None => "Source " + NatToString(i)
  }

  /** The entry `resolve_urls` produces for the `i`-th chunk: one segment whose
      short URL carries the index of the first chunk with the same URI. */
  function ResolvedEntry(sites: seq<WebChunk>, id: int, i: nat): (entry: ResolvedUrl)
    requires i < |sites|
    ensures |entry.segments| == 1
    ensures entry.segments[0].sourceLabel == SegmentLabel(sites[i], i)
    ensures entry.segments[0].value == sites[i].uri
    ensures IsPrefix(VertexPrefix, entry.segments[0].shortUrl)
  {
    var uri := sites[i].uri;
    assert Uris(sites)[i] == uri;
    ResolvedUrl([Segment(SegmentLabel(sites[i], i), ShortUrl(id, FirstIndex(Uris(sites), uri)), uri)])
  }

  /** The `seen_urls` table after the first `n` chunks: it maps exactly the
      URIs first seen before `n`, each to the short URL of its first chunk. */
  ghost predicate SeenTable(seen: map<string, string>, uris: seq<string>, id: int, n: nat)
  {
    && (forall u :: u in seen <==> u in uris && FirstIndex(uris, u) < n)
    && (forall u :: u in seen ==> u in uris && seen[u] == ShortUrl(id, FirstIndex(uris, u)))
  }

  /** One iteration of the table update keeps it exact. */
  lemma SeenStep(seen: map<string, string>, uris: seq<string>, id: int, i: nat)
    requires i < |uris| && SeenTable(seen, uris, id, i)
    ensures var next := if uris[i] in seen then seen else seen[uris[i] := ShortUrl(id, i)];
            SeenTable(next, uris, id, i + 1) && next[uris[i]] == ShortUrl(id, FirstIndex(uris, uris[i]))
  {
    var url := uris[i];
    var first := FirstIndex(uris, url);
    assert first <= i;
    forall u | u in uris && u != url
      ensures FirstIndex(uris, u) != i
    {
    }
  }

  /** `resolve_urls`. */
  method ResolveUrls(sites: seq<WebChunk>, id: int) returns (resolved: seq<ResolvedUrl>)
    ensures |resolved| == |sites|
    ensures forall i :: 0 <= i < |sites| ==> resolved[i] == ResolvedEntry(sites, id, i)
  {
    resolved := [];
    var seen: map<string, string> := map[];
    ghost var all := seq(|sites|, k requires 0 <= k < |sites| => ResolvedEntry(sites, id, k));
    for i := 0 to |sites|
      invariant resolved == all[..i]
      invariant SeenTable(seen, Uris(sites), id, i)
    {
      var entry;
      seen, entry := ResolveChunk(sites, id, i, seen);
      PrefixSnoc(all, i);
      resolved := resolved + [entry];
    }
    PrefixAll(all);
  }

  /** The body of the loop in `resolve_urls` for the `i`-th chunk. */
  method ResolveChunk(sites: seq<WebChunk>, id: int, i: nat, seen: map<string, string>)
    returns (seen': map<string, string>, entry: ResolvedUrl)
    requires i < |sites| && SeenTable(seen, Uris(sites), id, i)
    ensures SeenTable(seen', Uris(sites), id, i + 1)
    ensures entry == ResolvedEntry(sites, id, i)
  {
    var url := sites[i].uri;
    assert Uris(sites)[i] == url;
    SeenStep(seen, Uris(sites), id, i);
    seen' := seen;
    if url !in seen' {
      seen' := seen'[url := ShortUrl(id, i)];
    }
    var segment := Segment(SegmentLabel(sites[i], i), seen'[url], url);
    ShortUrlFromTable(sites, id, i, seen');
    entry := ResolvedUrl([segment]);
  }

  /** Once the table covers chunk `i`, it holds that chunk's URI, mapped to
      the short URL of the chunk's entry. */
  lemma ShortUrlFromTable(sites: seq<WebChunk>, id: int, i: nat, seen: map<string, string>)
    requires i < |sites| && SeenTable(seen, Uris(sites), id, i + 1)
    ensures sites[i].uri in seen
    ensures ResolvedEntry(sites, id, i).segments[0].shortUrl == seen[sites[i].uri]
  {
    var uris := Uris(sites);
    assert uris[i] == sites[i].uri;
    assert FirstIndex(uris, sites[i].uri) <= i;
  }

  /** Two chunks get the same short URL exactly when they have the same URI. */
  lemma ShortUrlSharedIff(sites: seq<WebChunk>, id: int, i: nat, j: nat)
    requires i < |sites| && j < |sites|
    ensures ResolvedEntry(sites, id, i).segments[0].shortUrl == ResolvedEntry(sites, id, j).segments[0].shortUrl
            <==> sites[i].uri == sites[j].uri
  {
    var uris := Uris(sites);
    assert uris[i] == sites[i].uri && uris[j] == sites[j].uri;
    var ki, kj := FirstIndex(uris, sites[i].uri), FirstIndex(uris, sites[j].uri);
    if ShortUrl(id, ki) == ShortUrl(id, kj) {
      ShortUrlInjective(id, ki, kj);
    }
  }

  /** A short URL names the first chunk with its URI: an index no later than
      the chunk's own, holding the same URI. */
  lemma ShortUrlNamesFirstOccurrence(sites: seq<WebChunk>, id: int, i: nat)
    requires i < |sites|
    ensures exists k :: 0 <= k <= i && sites[k].uri == sites[i].uri
              && ResolvedEntry(sites, id, i).segments[0].shortUrl == ShortUrl(id, k)
              && forall j :: 0 <= j < k ==> sites[j].uri != sites[i].uri
  {
    var uris := Uris(sites);
    assert uris[i] == sites[i].uri;
    var k := FirstIndex(uris, sites[i].uri);
    assert sites[k].uri == uris[k];
    assert forall j :: 0 <= j < k ==> sites[j].uri == uris[j];
  }
}
