/** The research agent's graph nodes (backend/src/agent/graph.py) with the
    language-model calls taken as inputs: the fan-out of search queries, the
    flattening of citations in `web_research`, the loop counter of
    `reflection`, the stop rule of `evaluate_research`, and the short-URL
    substitution of `generate_answer`. */
module AgentGraph {
  import opened Types
  import opened Strings
  import opened AgentUtils

  const WebResearchNode := "web_research"

  /** `Send(node, {"search_query": ..., "id": ...})`. */
  datatype Send = Send(node: string, searchQuery: string, id: int)

  // ===========================================================================
  // continue_to_web_research

  /** One dispatch per query, in order, numbered from 0. */
  function ContinueToWebResearch(searchQuery: seq<string>): (sends: seq<Send>)
    ensures |sends| == |searchQuery|
    ensures forall i :: 0 <= i < |sends| ==> sends[i] == Send(WebResearchNode, searchQuery[i], i)
  {
    seq(|searchQuery|, i requires 0 <= i < |searchQuery| => Send(WebResearchNode, searchQuery[i], i))
  }

  // ===========================================================================
  // web_research

  /** `[item for url_data in resolved_urls for item in url_data["segments"]]`. */
  function Flatten(resolved: seq<ResolvedUrl>): seq<Segment>
  {
    if |resolved| == 0 then [] else resolved[0].segments + Flatten(resolved[1..])
  }

  /** One more entry adds its segments at the end. */
  lemma {:induction false} FlattenSnoc(resolved: seq<ResolvedUrl>, e: ResolvedUrl)
    ensures Flatten(resolved + [e]) == Flatten(resolved) + e.segments
  {
    if |resolved| == 0 {
      assert [e][1..] == [];
    } else {
      FlattenSnoc(resolved[1..], e);
      assert (resolved + [e])[0] == resolved[0] && (resolved + [e])[1..] == resolved[1..] + [e];
    }
  }

  /** Flattening one-segment entries keeps one segment per entry, in order. */
  lemma {:induction false} FlattenSingletons(resolved: seq<ResolvedUrl>)
    requires forall i :: 0 <= i < |resolved| ==> |resolved[i].segments| == 1
    ensures |Flatten(resolved)| == |resolved|
    ensures forall i :: 0 <= i < |resolved| ==> Flatten(resolved)[i] == resolved[i].segments[0]
  {
    if |resolved| > 0 {
      FlattenSingletons(resolved[1..]);
      assert forall i :: 1 <= i < |resolved| ==> resolved[1..][i - 1] == resolved[i];
    }
  }

  /** What `web_research` returns to the graph. */
  datatype WebResearchOutput = WebResearchOutput(
    sourcesGathered: seq<Segment>,
    searchQuery: seq<string>,
    webResearchResult: seq<string>)

  /** `web_research`, given the search model's grounding chunks and answer text. */
  method WebResearch(searchQuery: string, id: int, chunks: seq<WebChunk>, responseText: string)
    returns (out: WebResearchOutput)
    ensures |out.sourcesGathered| == |chunks|
    ensures forall i :: 0 <= i < |chunks| ==> out.sourcesGathered[i] == ResolvedEntry(chunks, id, i).segments[0]
    ensures out.searchQuery == [searchQuery] && out.webResearchResult == [responseText]
  {
    var resolved := ResolveUrls(chunks, id);
    FlattenSingletons(resolved);
    out := WebResearchOutput(Flatten(resolved), [searchQuery], [responseText]);
  }

  // ===========================================================================
  // reflection and evaluate_research

  /** The reflection model's structured answer. */
  datatype ReflectionVerdict = ReflectionVerdict(
    isSufficient: bool,
    knowledgeGap: string,
    followUpQueries: seq<string>)

  /** What `reflection` returns to the graph. */
  datatype ReflectionState = ReflectionState(
    isSufficient: bool,
    knowledgeGap: string,
    followUpQueries: seq<string>,
    researchLoopCount: int,
    numberOfRanQueries: nat)

  /** `state.get("research_loop_count", 0) + 1`. */
  function NextLoopCount(count: Option<int>): (next: int)
    ensures next == (if count.Some? then count.value else 0) + 1
  {
    match count
    case Some(c) => c + 1
    case None => 1
  }

  /** The stored loop count after `k` reflections, starting from `start`. */
  function LoopCountAfter(start: Option<int>, k: nat): Option<int>
  {
    if k == 0 then start else Some(NextLoopCount(LoopCountAfter(start, k - 1)))
  }

  /** Each reflection adds exactly one to the count, counting from 0 when absent. */
  lemma {:induction false} LoopCountAfterIs(start: Option<int>, k: nat)
    requires k > 0
    ensures LoopCountAfter(start, k) == Some((match start case Some(c) => c case None => 0) + k)
  {
    if k > 1 {
      LoopCountAfterIs(start, k - 1);
    }
  }

  /** The part of the graph state that `reflection` reads and writes. */
  class ResearchState {
    var researchLoopCount: Option<int>
    var searchQuery: seq<string>

    constructor (count: Option<int>, queries: seq<string>)
      ensures researchLoopCount == count && searchQuery == queries
    {
      researchLoopCount := count;
      searchQuery := queries;
    }

    /** `reflection`: bump the loop count in the state and report the
        verdict with the new count and the number of queries run so far. */
    method Reflection(verdict: ReflectionVerdict) returns (out: ReflectionState)
      modifies this`researchLoopCount
      ensures researchLoopCount == Some(NextLoopCount(old(researchLoopCount)))
      ensures out == ReflectionState(verdict.isSufficient, verdict.knowledgeGap, verdict.followUpQueries,
                                     NextLoopCount(old(researchLoopCount)), |searchQuery|)
    {
      researchLoopCount := Some(NextLoopCount(researchLoopCount));
      out := ReflectionState(verdict.isSufficient, verdict.knowledgeGap, verdict.followUpQueries,
                             researchLoopCount.value, |searchQuery|);
    }
  }

  /** Where the graph goes after reflection. */
  datatype Route = GenerateAnswer | ToWebResearch(sends: seq<Send>)

  /** The loop bound: the state's value when present, else the configuration's. */
  function EffectiveMaxLoops(stateMaxLoops: Option<int>, configMaxLoops: int): (bound: int)
    ensures stateMaxLoops.Some? ==> bound == stateMaxLoops.value
    ensures stateMaxLoops.None? ==> bound == configMaxLoops
  {
    match stateMaxLoops
    case Some(m) => m
    case None => configMaxLoops
  }

  /** `evaluate_research`: answer once the research is sufficient or the loop
      bound is reached, otherwise dispatch each follow-up query with an id
      that continues after the queries already run. */
  function EvaluateResearch(state: ReflectionState, stateMaxLoops: Option<int>, configMaxLoops: int): (route: Route)
    ensures route == GenerateAnswer <==>
              state.isSufficient || state.researchLoopCount >= EffectiveMaxLoops(stateMaxLoops, configMaxLoops)
    ensures route.ToWebResearch? ==>
              |route.sends| == |state.followUpQueries|
              && forall i :: 0 <= i < |route.sends| ==>
                   route.sends[i] == Send(WebResearchNode, state.followUpQueries[i], state.numberOfRanQueries + i)
  {
    var maxLoops := EffectiveMaxLoops(stateMaxLoops, configMaxLoops);
    if state.isSufficient || state.researchLoopCount >= maxLoops then GenerateAnswer
    else ToWebResearch(seq(|state.followUpQueries|, i requires 0 <= i < |state.followUpQueries| =>
                             Send(WebResearchNode, state.followUpQueries[i], state.numberOfRanQueries + i)))
  }

  /** Follow-up dispatches get ids after every id below `numberOfRanQueries`:
      with at least as many queries run as the first fan-out sent, no
      follow-up id repeats a first-round id, and follow-up ids are distinct. */
  lemma FollowUpIdsFresh(initial: seq<string>, state: ReflectionState, stateMaxLoops: Option<int>, configMaxLoops: int)
    requires state.numberOfRanQueries >= |initial|
    requires EvaluateResearch(state, stateMaxLoops, configMaxLoops).ToWebResearch?
    ensures var first := ContinueToWebResearch(initial);
            var next := EvaluateResearch(state, stateMaxLoops, configMaxLoops).sends;
            (forall i, j :: 0 <= i < |first| && 0 <= j < |next| ==> first[i].id != next[j].id)
            && (forall i, j :: 0 <= i < j < |next| ==> next[i].id != next[j].id)
  {
  }

  /** Starting from `start` and with the state's or the configuration's bound
      `m`, the reflection that brings the count to `m` or beyond routes to the
      answer, whatever the verdict. */
  lemma ResearchLoopStops(start: Option<int>, k: nat, verdict: ReflectionVerdict, ranQueries: nat,
                          stateMaxLoops: Option<int>, configMaxLoops: int)
    requires k > 0
    requires (match start case Some(c) => c case None => 0) + k >= EffectiveMaxLoops(stateMaxLoops, configMaxLoops)
    ensures LoopCountAfter(start, k).Some?
    ensures EvaluateResearch(ReflectionState(verdict.isSufficient, verdict.knowledgeGap, verdict.followUpQueries,
                                             LoopCountAfter(start, k).value, ranQueries),
                             stateMaxLoops, configMaxLoops) == GenerateAnswer
  {
    LoopCountAfterIs(start, k);
  }

  // ===========================================================================
  // generate_answer

  /** The citation pass: in order, each source whose short URL occurs in the
      text as it stands is kept and every occurrence of its short URL is
      replaced by its URL. Returns the final text and the kept sources. */
  function Cite(content: string, sources: seq<Segment>): (r: (string, seq<Segment>))
    ensures |r.1| <= |sources|
    ensures forall x :: x in r.1 ==> x in sources
    decreases |sources|
  {
    if |sources| == 0 then (content, [])
    else
      var s := sources[0];
      if Contains(content, s.shortUrl) then
        var rest := Cite(ReplaceAll(content, s.shortUrl, s.value), sources[1..]);
        (rest.0, [s] + rest.1)
      else Cite(content, sources[1..])
  }

  /** What `generate_answer` returns to the graph. */
  datatype AnswerOutput = AnswerOutput(messages: seq<LcMessage>, sourcesGathered: seq<Segment>)

  /** `generate_answer`, given the answer model's text. */
  method GenerateAnswerNode(answer: string, sourcesGathered: seq<Segment>) returns (out: AnswerOutput)
    ensures out.messages == [AIMessage(Cite(answer, sourcesGathered).0)]
    ensures out.sourcesGathered == Cite(answer, sourcesGathered).1
  {
    var content := answer;
    var sources: seq<Segment> := [];
    for i := 0 to |sourcesGathered|
      invariant Cite(content, sourcesGathered[i..]).0 == Cite(answer, sourcesGathered).0
      invariant sources + Cite(content, sourcesGathered[i..]).1 == Cite(answer, sourcesGathered).1
    {
      var source := sourcesGathered[i];
      assert sourcesGathered[i..][1..] == sourcesGathered[i + 1..];
      if Contains(content, source.shortUrl) {
        content := ReplaceAll(content, source.shortUrl, source.value);
        sources := sources + [source];
      }
    }
    assert sourcesGathered[|sourcesGathered|..] == [];
    out := AnswerOutput([AIMessage(content)], sources);
  }

  /** Every source's short URL replaced in turn, without the occurrence test. */
  function ReplaceEach(content: string, sources: seq<Segment>): string
    decreases |sources|
  {
    if |sources| == 0 then content
    else ReplaceEach(ReplaceAll(content, sources[0].shortUrl, sources[0].value), sources[1..])
  }

  /** The occurrence test never changes the text: the final text is that of
      replacing every source's short URL in turn. */
  lemma {:induction false} CiteTextIsReplaceEach(content: string, sources: seq<Segment>)
    ensures Cite(content, sources).0 == ReplaceEach(content, sources)
    decreases |sources|
  {
    if |sources| > 0 {
      var s := sources[0];
      if Contains(content, s.shortUrl) {
        CiteTextIsReplaceEach(ReplaceAll(content, s.shortUrl, s.value), sources[1..]);
      } else {
        ReplaceAbsent(content, s.shortUrl, s.value);
        CiteTextIsReplaceEach(content, sources[1..]);
      }
    }
  }

  /** `sub` is `s` with some elements left out, order kept. */
  predicate IsSubsequence<T(==)>(sub: seq<T>, s: seq<T>)
  {
    if |s| == 0 then |sub| == 0
    else (|sub| > 0 && sub[0] == s[0] && IsSubsequence(sub[1..], s[1..])) || IsSubsequence(sub, s[1..])
  }

  /** The kept sources are some of the gathered ones, in their original order. */
  lemma {:induction false} CiteKeepsOrder(content: string, sources: seq<Segment>)
    ensures IsSubsequence(Cite(content, sources).1, sources)
    decreases |sources|
  {
    if |sources| > 0 {
      var s := sources[0];
      if Contains(content, s.shortUrl) {
        var rest := ReplaceAll(content, s.shortUrl, s.value);
        CiteKeepsOrder(rest, sources[1..]);
        assert ([s] + Cite(rest, sources[1..]).1)[1..] == Cite(rest, sources[1..]).1;
      } else {
        CiteKeepsOrder(content, sources[1..]);
      }
    }
  }

  /** The first kept source is the first one whose short URL occurs in the
      answer as the model wrote it. */
  lemma {:induction false} CiteFirstKept(content: string, sources: seq<Segment>)
    ensures Cite(content, sources).1 != [] ==>
              exists k :: 0 <= k < |sources| && sources[k] == Cite(content, sources).1[0]
                          && Contains(content, sources[k].shortUrl)
                          && forall j :: 0 <= j < k ==> !Contains(content, sources[j].shortUrl)
  {
    if |sources| > 0 && !Contains(content, sources[0].shortUrl) {
      CiteFirstKept(content, sources[1..]);
      if Cite(content, sources).1 != [] {
        var k :| 0 <= k < |sources[1..]| && sources[1..][k] == Cite(content, sources[1..]).1[0]
                 && Contains(content, sources[1..][k].shortUrl)
                 && forall j :: 0 <= j < k ==> !Contains(content, sources[1..][j].shortUrl);
        assert sources[k + 1] == sources[1..][k];
        assert forall j :: 1 <= j < k + 1 ==> sources[j] == sources[1..][j - 1];
      }
    }
  }

  /** Replacing the short URLs of one more source continues from the text the earlier ones left. */
  lemma {:induction false} ReplaceEachSnoc(content: string, sources: seq<Segment>, x: Segment)
    ensures ReplaceEach(content, sources + [x]) == ReplaceAll(ReplaceEach(content, sources), x.shortUrl, x.value)
    decreases |sources|
  {
    if |sources| == 0 {
      assert [x][1..] == [];
    } else {
      ReplaceEachSnoc(ReplaceAll(content, sources[0].shortUrl, sources[0].value), sources[1..], x);
      assert (sources + [x])[1..] == sources[1..] + [x];
    }
  }

  /** The sources from position `k` on that the citation pass keeps, stated by
      position: source `k` is kept exactly when its short URL occurs in the
      answer once the short URLs of all earlier sources have been replaced. */
  function CitedFrom(content: string, sources: seq<Segment>, k: nat): seq<Segment>
    requires k <= |sources|
    decreases |sources| - k
  {
    if k == |sources| then []
    else (if Contains(ReplaceEach(content, sources[..k]), sources[k].shortUrl) then [sources[k]] else [])
         + CitedFrom(content, sources, k + 1)
  }

  /** The pass over the sources from `k` on, started from the text the
      earlier sources left, keeps `CitedFrom(content, sources, k)`. */
  lemma {:induction false} CiteSuffix(content: string, sources: seq<Segment>, k: nat)
    requires k <= |sources|
    ensures Cite(ReplaceEach(content, sources[..k]), sources[k..]).1 == CitedFrom(content, sources, k)
    decreases |sources| - k
  {
    if k < |sources| {
      var text := ReplaceEach(content, sources[..k]);
      var s := sources[k];
      assert sources[k..][0] == s && sources[k..][1..] == sources[k + 1..];
      assert sources[..k + 1] == sources[..k] + [s];
      ReplaceEachSnoc(content, sources[..k], s);
      if !Contains(text, s.shortUrl) {
        ReplaceAbsent(text, s.shortUrl, s.value);
      }
      CiteSuffix(content, sources, k + 1);
    }
  }

  /** The citation pass keeps exactly the sources whose short URL occurs in
      the answer as it stands when that source is checked, in order. */
  lemma CiteKeepsCitedByPosition(content: string, sources: seq<Segment>)
    ensures Cite(content, sources).1 == CitedFrom(content, sources, 0)
  {
    CiteSuffix(content, sources, 0);
    assert sources[..0] == [] && sources[0..] == sources;
  }

  /** An answer citing none of the short URLs comes back unchanged with no sources. */
  lemma {:induction false} CiteNoCitations(content: string, sources: seq<Segment>)
    requires forall i :: 0 <= i < |sources| ==> !Contains(content, sources[i].shortUrl)
    ensures Cite(content, sources) == (content, [])
  {
    if |sources| > 0 {
      CiteNoCitations(content, sources[1..]);
    }
  }

  // ===========================================================================
  // Finding: one short URL is a prefix of another

  /** The short URL of chunk `10 * i + d` is that of chunk `i` followed by one digit. */
  lemma ShortUrlExtends(id: int, i: nat, d: nat)
    requires i > 0 && d < 10
    ensures ShortUrl(id, 10 * i + d) == ShortUrl(id, i) + [DigitChar(d)]
  {
    var n := 10 * i + d;
    assert n / 10 == i && n % 10 == d;
    assert NatToString(n) == NatToString(i) + [DigitChar(d)];
  }

  /** With no repeated URIs, each chunk's segment carries its own index. */
  lemma DistinctUrisOwnShortUrl(sites: seq<WebChunk>, id: int, i: nat)
    requires i < |sites| && NoDuplicates(Uris(sites))
    ensures ResolvedEntry(sites, id, i).segments[0].shortUrl == ShortUrl(id, i)
  {
    var uris := Uris(sites);
    assert uris[i] == sites[i].uri;
    assert forall k :: 0 <= k < i ==> uris[..i][k] == uris[k];
    FirstIndexOfNew(uris, i);
  }

  /** As written: among gathered sources, an answer that cites only chunk
      `10 * i + d` also passes the occurrence test of chunk `i`, whose short URL
      is a prefix of the cited one. Chunk `i` is kept, its URL replaces the
      citation with one digit left over, and the cited source is dropped. */
  lemma CitePrefixClash(id: int, i: nat, d: nat, first: Segment, second: Segment)
    requires i > 0 && d < 10
    requires first.shortUrl == ShortUrl(id, i) && second.shortUrl == ShortUrl(id, 10 * i + d)
    requires !Contains(first.value + [DigitChar(d)], second.shortUrl)
    ensures Cite(second.shortUrl, [first, second]) == (first.value + [DigitChar(d)], [first])
  {
    ShortUrlExtends(id, i, d);
    var p, c := first.shortUrl, second.shortUrl;
    var x := [DigitChar(d)];
    assert c == p + x && IsPrefix(p, c) && |p| > 0;
    assert Contains(c, p);
    assert c[|p|..] == x;
    assert ReplaceAll(x, p, first.value) == x by {
      assert !IsPrefix(p, x);
      assert x[1..] == [];
    }
    var text := first.value + x;
    assert ReplaceAll(c, p, first.value) == text;
    assert [first, second][1..] == [second];
    assert Cite(text, [second]) == (text, []) by {
      assert [second][1..] == [];
    }
    assert Cite(c, [first, second]) == (text, [first] + []);
    assert [first] + [] == [first];
  }

  /** `web_research` on eleven or more chunks with distinct URIs gathers two
      sources whose short URLs clash: those of chunks 1 and 10. */
  lemma GatheredShortUrlsClash(sites: seq<WebChunk>, id: int, out: WebResearchOutput)
    requires |sites| > 10 && NoDuplicates(Uris(sites))
    requires |out.sourcesGathered| == |sites|
    requires forall i :: 0 <= i < |sites| ==> out.sourcesGathered[i] == ResolvedEntry(sites, id, i).segments[0]
    ensures out.sourcesGathered[1].shortUrl == ShortUrl(id, 1)
    ensures out.sourcesGathered[10].shortUrl == ShortUrl(id, 1) + "0"
  {
    DistinctUrisOwnShortUrl(sites, id, 1);
    DistinctUrisOwnShortUrl(sites, id, 10);
    ShortUrlExtends(id, 1, 0);
  }

  /** A source whose non-empty short URL starts the text. */
  predicate CitedAtStart(content: string, s: Segment)
  {
    |s.shortUrl| > 0 && IsPrefix(s.shortUrl, content)
  }

  /** The source with the longest short URL starting the text (the first such
      on a tie), if any. */
  function LongestCitation(content: string, sources: seq<Segment>): (m: Option<Segment>)
    ensures m.Some? ==> m.value in sources && CitedAtStart(content, m.value)
    ensures m.Some? ==> forall s :: s in sources && CitedAtStart(content, s) ==> |s.shortUrl| <= |m.value.shortUrl|
    ensures m.None? ==> forall s :: s in sources ==> !CitedAtStart(content, s)
  {
    if |sources| == 0 then None
    else
      var rest := LongestCitation(content, sources[1..]);
      assert forall s :: s in sources ==> s == sources[0] || s in sources[1..];
      if CitedAtStart(content, sources[0]) && (rest.None? || |rest.value.shortUrl| <= |sources[0].shortUrl|)
      then Some(sources[0])
      else rest
  }

  /** The corrected substitution: one left-to-right scan that replaces, at each
      position, the longest short URL starting there by its URL. Returns the
      text and the short URLs replaced, in order. */
  function Resolve(content: string, sources: seq<Segment>): (string, seq<string>)
    decreases |content|
  {
    if |content| == 0 then ("", [])
    else
      match LongestCitation(content, sources)
      case Some(s) =>
        var rest := Resolve(content[|s.shortUrl|..], sources);
        (s.value + rest.0, [s.shortUrl] + rest.1)
      case None =>
        var rest := Resolve(content[1..], sources);
        ([content[0]] + rest.0, rest.1)
  }

  /** The sources whose short URL was replaced, in gathered order, one per short URL. */
  function KeepCited(sources: seq<Segment>, cited: seq<string>): (kept: seq<Segment>)
    ensures forall k :: 0 <= k < |kept| ==> kept[k] in sources && kept[k].shortUrl in cited
    ensures cited == [] ==> kept == []
  {
    if |sources| == 0 then []
    else
      var init := sources[..|sources| - 1];
      var last := sources[|sources| - 1];
      var kept := KeepCited(init, cited);
      assert forall s :: s in init ==> s in sources;
      if last.shortUrl in cited && forall j :: 0 <= j < |init| ==> init[j].shortUrl != last.shortUrl
      then kept + [last]
      else kept
  }

  /** The corrected citation pass of `generate_answer`. */
  function CiteCorrected(content: string, sources: seq<Segment>): (string, seq<Segment>)
  {
    var r := Resolve(content, sources);
    (r.0, KeepCited(sources, r.1))
  }

  /** Corrected: an answer that is exactly one gathered short URL becomes the
      URL of a source with that short URL, and only such sources are kept. */
  lemma CorrectedExactCitation(content: string, sources: seq<Segment>, k: nat)
    requires k < |sources| && sources[k].shortUrl == content && content != ""
    ensures exists j :: 0 <= j < |sources| && sources[j].shortUrl == content
                        && CiteCorrected(content, sources).0 == sources[j].value
    ensures CiteCorrected(content, sources).1 != []
    ensures forall s :: s in CiteCorrected(content, sources).1 ==> s.shortUrl == content
  {
    assert CitedAtStart(content, sources[k]);
    var m := LongestCitation(content, sources).value;
    assert m.shortUrl == content;
    assert content[|m.shortUrl|..] == [];
    var j :| 0 <= j < |sources| && sources[j] == m;
    assert LongestCitation(content, sources) == Some(m);
    assert Resolve(content[|m.shortUrl|..], sources) == ("", []);
    assert Resolve(content, sources) == (m.value + "", [m.shortUrl] + []);
    assert m.value + "" == m.value && [m.shortUrl] + [] == [content];
    var kept := KeepCited(sources, [content]);
    assert sources[FirstIndex(sources, sources[k])] == sources[k];
    KeepCitedFirst(sources, [content], k);
  }

  /** A cited short URL keeps at least one source. */
  lemma {:induction false} KeepCitedFirst(sources: seq<Segment>, cited: seq<string>, k: nat)
    requires k < |sources| && sources[k].shortUrl in cited
    ensures KeepCited(sources, cited) != []
  {
    var init := sources[..|sources| - 1];
    var last := sources[|sources| - 1];
    if k < |sources| - 1 {
      assert init[k] == sources[k];
      KeepCitedFirst(init, cited, k);
    } else if !forall j :: 0 <= j < |init| ==> init[j].shortUrl != last.shortUrl {
      var j :| 0 <= j < |init| && init[j].shortUrl == last.shortUrl;
      KeepCitedFirst(init, cited, j);
    }
  }

  /** Corrected: on the clashing pair the cited source alone is kept and the
      citation becomes its URL. */
  lemma CorrectedPrefixClash(id: int, i: nat, d: nat, first: Segment, second: Segment)
    requires i > 0 && d < 10
    requires first.shortUrl == ShortUrl(id, i) && second.shortUrl == ShortUrl(id, 10 * i + d)
    ensures CiteCorrected(second.shortUrl, [first, second]) == (second.value, [second])
  {
    ShortUrlExtends(id, i, d);
    var c := second.shortUrl;
    var sources := [first, second];
    assert LongestCitation(c, sources[1..]) == Some(second) by {
      assert sources[1..] == [second];
      assert LongestCitation(c, [second][1..]) == None;
    }
    assert LongestCitation(c, sources) == Some(second);
    assert c[|second.shortUrl|..] == [];
    assert Resolve(c[|second.shortUrl|..], sources) == ("", []);
    assert Resolve(c, sources) == (second.value + "", [second.shortUrl] + []);
    assert second.value + "" == second.value && [second.shortUrl] + [] == [c];
    assert sources[..1] == [first];
    assert KeepCited([first], [c]) == [] by {
      assert [first][..0] == [];
    }
    assert |first.shortUrl| < |c| && first.shortUrl != c;
    assert KeepCited(sources, [c]) == [] + [second];
    assert [] + [second] == [second];
    assert CiteCorrected(c, sources) == (Resolve(c, sources).0, KeepCited(sources, Resolve(c, sources).1));
  }

  /** Corrected: an answer citing none of the short URLs comes back unchanged with no sources. */
  lemma {:induction false} CorrectedNoCitations(content: string, sources: seq<Segment>)
    requires forall i :: 0 <= i < |sources| ==> |sources[i].shortUrl| > 0 && !Contains(content, sources[i].shortUrl)
    ensures Resolve(content, sources) == (content, [])
    ensures CiteCorrected(content, sources) == (content, [])
    decreases |content|
  {
    if |content| > 0 {
      assert LongestCitation(content, sources) == None by {
        forall s | s in sources ensures !CitedAtStart(content, s) {
          var i :| 0 <= i < |sources| && sources[i] == s;
        }
      }
      CorrectedNoCitations(content[1..], sources);
      assert [content[0]] + content[1..] == content;
    }
  }
}
