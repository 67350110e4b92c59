/**
 * The retrieval pipeline (lib/retrieval-pipeline.ts), the rerank join (lib/retrieval-rerank-input.ts) and
 * the client's reducer (lib/query-chat-state.ts): what is streamed, what is audited, what is shown.
 */
module Pipeline {
  import opened JsText
  import opened Options
  import Citations
  import RankFusion

  type Id = string
  type Vector = seq<real>

  const TOP_K := 20
  const TOP_N_SYNTH := 5
  const MAX_TOP_N := 1000

  // ----- Providers as arbitrary outcomes -----

  /** A provider that may be down, which the pipeline degrades on, or fail otherwise, which it passes on. */
  datatype Call<+T> = Answered(value: T) | Unavailable(message: string) | Errored(message: string)

  /** A database read: rows or an error. */
  datatype Fetch<+T> = Got(value: T) | Broke(message: string)

  datatype Hit = Hit(entry: Id, chunk: Id)

  datatype Row = Row(id: Id, title: string, category: string, tags: seq<string>, body: string,
                     sourcePointer: string, verifiedAt: string, sensitivity: string)

  datatype ChunkSlice = ChunkSlice(entry: Id, start: nat, stop: nat)

  /** `None` where the number is not an integer, or not finite. */
  datatype Ranked = Ranked(index: Option<int>, score: Option<real>)

  datatype Synth = Synth(first: seq<Chunk> -> Call<string>, retry: seq<Chunk> -> Call<string>)

  /** `lead` cuts the opening tokens of a body, `preview` the candidate card's excerpt. */
  datatype Providers = Providers(
    embed: Call<Vector>,
    ann: Vector -> Fetch<seq<Hit>>,
    keyword: Fetch<seq<Id>>,
    rows: seq<Id> -> Fetch<seq<Row>>,
    slices: seq<Id> -> Fetch<seq<ChunkSlice>>,
    rerank: seq<string> -> Call<seq<Ranked>>,
    synth: Option<Synth>,
    lead: string -> string,
    preview: (string, string) -> string)

  // ----- What travels -----

  /** An entry with the very text the models see for it. */
  datatype Boundary = Boundary(row: Row, text: string)

  datatype Chunk = Chunk(boundary: Boundary, score: real)

  datatype Card = Card(row: Row, preview: string)

  datatype Snippet = Snippet(id: Id, title: string, category: string, sensitivity: string, verifiedAt: string, text: string)

  datatype Reason =
    | NoKeywordMatchUnderEmbedOutage
    | SynthUnavailable
    | RerankUnavailable
    | RerankAndSynthUnavailable
    | EmbedUnavailableKeywordFallback
    | EmbedAndRerankUnavailableKeywordFallback
    | EmbedAndSynthUnavailableKeywordBare
    | EmbedRerankSynthUnavailableKeywordBare
    | CitationValidationFailed

  datatype Event =
    | Candidates(cards: seq<Card>)
    | AnswerDelta(text: string)
    | Done(citations: seq<Id>, degraded: Option<bool>, reason: Option<Reason>)
    | ChunksOnly(snippets: seq<Snippet>, reason: Option<Reason>)
    | NoContent(reason: Option<Reason>)
    | ErrorEvent(code: string)

  /** How the citation check ended, as the audit row's column spells it. */
  datatype Code =
    | Accepted
    | SourcesBlockMissing
    | MultipleSourcesBlocks
    | TrailingProse
    | SourcesBlockEmpty
    | InvalidUuid
    | DuplicateId
    | HallucinatedId
    | InlineSourcesMismatch

  /** What a citation failure leaves on the audit row besides its code. */
  datatype Detail =
    | NoDetail
    | Offending(ids: seq<Id>)
    | Mismatch(inlineOnly: seq<Id>, sourcesOnly: seq<Id>)
    | BlockCount(count: nat)
    | Trailing(text: string)

  datatype AuditStatus = StatusOk | StatusError

  const FAILED_PREFIX := "citation_validation_failed: "
  const RETRY_PREFIX_HASH := "stricter-prompt-prefix"

  datatype Outcome = Outcome(
    annIds: seq<Id>,
    keywordIds: seq<Id>,
    fusedIds: seq<Id>,
    rerankedIds: seq<Id>,
    citationIds: seq<Id>,
    keywordOnly: bool,
    degraded: bool,
    reason: Option<Reason>,
    status: AuditStatus,
    error: Option<string>,
    validation: Option<Code>,
    detail: Detail,
    retryAttempted: bool,
    retryPrefixHash: Option<string>)

  datatype Run = Returns(events: seq<Event>, outcome: Outcome) | Throws(events: seq<Event>, message: string)

  // ----- The degradation matrix -----

  function MapDegradedReason(embedOk: bool, rerankOk: bool, synthOk: bool, fusedNonEmpty: bool): Option<Reason> {
    if !embedOk && !fusedNonEmpty then Some(NoKeywordMatchUnderEmbedOutage)
    else if embedOk && rerankOk && synthOk then None
    else if embedOk && rerankOk && !synthOk then Some(SynthUnavailable)
    else if embedOk && !rerankOk && synthOk then Some(RerankUnavailable)
    else if embedOk && !rerankOk && !synthOk then Some(RerankAndSynthUnavailable)
    else if !embedOk && rerankOk && synthOk then Some(EmbedUnavailableKeywordFallback)
    else if !embedOk && !rerankOk && synthOk then Some(EmbedAndRerankUnavailableKeywordFallback)
    else if !embedOk && rerankOk && !synthOk then Some(EmbedAndSynthUnavailableKeywordBare)
    else Some(EmbedRerankSynthUnavailableKeywordBare)
  }

  /** Each reason names one row of the matrix: which providers were down can be read off it. */
  lemma ReasonNamesTheRow(e1: bool, r1: bool, s1: bool, f1: bool, e2: bool, r2: bool, s2: bool, f2: bool)
    requires MapDegradedReason(e1, r1, s1, f1) == MapDegradedReason(e2, r2, s2, f2)
    ensures e1 == e2
    ensures (e1 || f1) == (e2 || f2)
    ensures e1 || f1 ==> r1 == r2 && s1 == s2
    ensures MapDegradedReason(e1, r1, s1, f1).None? <==> e1 && r1 && s1
    ensures MapDegradedReason(e1, r1, s1, f1) != Some(CitationValidationFailed)
  {
  }

  // ----- Hydration -----

  function ById(rows: seq<Row>): (m: map<Id, Row>)
    ensures forall id :: id in m ==> m[id].id == id && m[id] in rows
    ensures forall i :: 0 <= i < |rows| ==> rows[i].id in m
  {
    if rows == [] then map[] else ById(rows[..|rows| - 1])[rows[|rows| - 1].id := rows[|rows| - 1]]
  }

  /** The requested order, ids without a row left out. */
  function OrderedRows(ids: seq<Id>, byId: map<Id, Row>): (rows: seq<Row>)
    requires forall id :: id in byId ==> byId[id].id == id
    ensures |rows| <= |ids|
    ensures forall i :: 0 <= i < |rows| ==> rows[i].id in ids && rows[i].id in byId && rows[i] == byId[rows[i].id]
    ensures forall id :: id in ids && id in byId ==> byId[id] in rows
    ensures Distinct(ids) ==> forall i, j :: 0 <= i < j < |rows| ==> rows[i].id != rows[j].id
  {
    if ids == [] then []
    else
      var rest := OrderedRows(ids[1..], byId);
      assert ids == [ids[0]] + ids[1..];
      assert Distinct(ids) ==> Distinct(ids[1..]) && ids[0] !in ids[1..];
      if ids[0] in byId then [byId[ids[0]]] + rest else rest
  }

  /** String.slice for offsets that are not negative. */
  function JsSlice(s: string, start: nat, stop: nat): string {
    var hi := if stop < |s| then stop else |s|;
    if start < hi then s[start..hi] else ""
  }

  /** The best chunk's text for each entry that has one; a later chunk overrides. */
  function BestChunks(slices: seq<ChunkSlice>, byId: map<Id, Row>): map<Id, string> {
    if slices == [] then map[]
    else
      var last := slices[|slices| - 1];
      var rest := BestChunks(slices[..|slices| - 1], byId);
      if last.entry in byId then rest[last.entry := JsSlice(byId[last.entry].body, last.start, last.stop)] else rest
  }

  method CollectBestChunks(slices: seq<ChunkSlice>, byId: map<Id, Row>) returns (best: map<Id, string>)
    ensures best == BestChunks(slices, byId)
  {
    best := map[];
    for i := 0 to |slices|
      invariant best == BestChunks(slices[..i], byId)
    {
      assert slices[..i + 1][..i] == slices[..i];
      var ch := slices[i];
      if ch.entry in byId {
        best := best[ch.entry := JsSlice(byId[ch.entry].body, ch.start, ch.stop)];
      }
    }
    assert slices[..|slices|] == slices;
  }

  /** What stands for an entry that no chunk was found for: title line and opening of the body. */
  function Representative(lead: string -> string, row: Row): string
    requires row.title != ""
  {
    "# " + row.title + "\n" + if row.body == "" then "" else lead(row.body)
  }

  predicate Titled(rows: seq<Row>, best: map<Id, string>) {
    forall i :: 0 <= i < |rows| ==> rows[i].id in best || rows[i].title != ""
  }

  function Boundaries(lead: string -> string, rows: seq<Row>, best: map<Id, string>): (bs: seq<Boundary>)
    requires Titled(rows, best)
    ensures |bs| == |rows| && forall i :: 0 <= i < |rows| ==> bs[i].row == rows[i]
  {
    seq(|rows|, i requires 0 <= i < |rows| =>
      Boundary(rows[i], if rows[i].id in best then best[rows[i].id] else Representative(lead, rows[i])))
  }

  /** The chunks of those hits whose entries are shown. */
  function RelevantChunks(hits: seq<Hit>, rows: seq<Row>): (ids: seq<Id>)
    ensures |ids| <= |hits|
  {
    if hits == [] then []
    else if exists i :: 0 <= i < |rows| && rows[i].id == hits[0].entry then
      [hits[0].chunk] + RelevantChunks(hits[1..], rows)
    else RelevantChunks(hits[1..], rows)
  }

  /** The candidates in fused order, each with its text; an error when a read or a title is missing. */
  function Hydrated(p: Providers, hits: seq<Hit>, fused: seq<Id>): Fetch<seq<Boundary>> {
    match p.rows(Head(fused, TOP_N_SYNTH))
    case Broke(message) => Broke(message)
    case Got(found) =>
      var byId := ById(found);
      var rows := OrderedRows(Head(fused, TOP_N_SYNTH), byId);
      var wanted := RelevantChunks(hits, rows);
      var slices := if wanted == [] then Got([]) else p.slices(wanted);
      if slices.Broke? then Broke(slices.message)
      else
        var best := BestChunks(slices.value, byId);
        if Titled(rows, best) then Got(Boundaries(p.lead, rows, best)) else Broke("title must be a non-empty string")
  }

  method Hydrate(p: Providers, embedOk: bool, hits: seq<Hit>, fused: seq<Id>) returns (r: Fetch<seq<Boundary>>)
    requires !embedOk ==> hits == []
    ensures r == Hydrated(p, hits, fused)
  {
    var ids := Head(fused, TOP_N_SYNTH);
    var found := p.rows(ids);
    if found.Broke? {
      return Broke(found.message);
    }
    var byId := ById(found.value);
    var rows := OrderedRows(ids, byId);
    var best: map<Id, string> := map[];
    if embedOk && hits != [] && rows != [] {
      var wanted := RelevantChunks(hits, rows);
      if wanted != [] {
        var slices := p.slices(wanted);
        if slices.Broke? {
          return Broke(slices.message);
        }
        best := CollectBestChunks(slices.value, byId);
      }
    } else {
      NothingRelevant(hits, rows);
    }
    if !Titled(rows, best) {
      return Broke("title must be a non-empty string");
    }
    r := Got(Boundaries(p.lead, rows, best));
  }

  lemma NothingRelevant(hits: seq<Hit>, rows: seq<Row>)
    requires hits == [] || rows == []
    ensures RelevantChunks(hits, rows) == []
  {
  }

  // ----- Joining the reranker's answer -----

  predicate GoodRank(ranking: seq<Ranked>, i: nat, size: nat)
    requires i < |ranking|
  {
    && ranking[i].index.Some? && 0 <= ranking[i].index.value < size
    && ranking[i].score.Some?
    && forall j :: 0 <= j < i ==> ranking[j].index != ranking[i].index
  }

  function Cut(ranking: seq<Ranked>, topN: nat): (n: nat)
    ensures n <= |ranking| && n <= topN
  {
    if |ranking| < topN then |ranking| else topN
  }

  predicate GoodRanks(ranking: seq<Ranked>, size: nat, n: nat)
    requires n <= |ranking|
  {
    forall i :: 0 <= i < n ==> GoodRank(ranking, i, size)
  }

  function Joined(ranking: seq<Ranked>, boundaries: seq<Boundary>, n: nat): (chunks: seq<Chunk>)
    requires n <= |ranking| && GoodRanks(ranking, |boundaries|, n)
    ensures |chunks| == n
    ensures forall i :: 0 <= i < n ==>
      GoodRank(ranking, i, |boundaries|) && chunks[i].boundary == boundaries[ranking[i].index.value]
  {
    seq(n, i requires 0 <= i < n =>
      assert GoodRank(ranking, i, |boundaries|);
      Chunk(boundaries[ranking[i].index.value], ranking[i].score.value))
  }

  /** Ranking order, each boundary at most once; a bad index, a repeat or a non-finite score is a RangeError. */
  method JoinRerankedToSynthInput(ranking: seq<Ranked>, boundaries: seq<Boundary>, topN: int)
    returns (chunks: Option<seq<Chunk>>)
    ensures chunks.Some? <==> 1 <= topN <= MAX_TOP_N && GoodRanks(ranking, |boundaries|, Cut(ranking, topN))
    ensures chunks.Some? ==> chunks.value == Joined(ranking, boundaries, Cut(ranking, topN))
  {
    if !(1 <= topN <= MAX_TOP_N) {
      return None;
    }
    var limit := Cut(ranking, topN);
    var out: seq<Chunk> := [];
    var seen: set<int> := {};
    for i := 0 to limit
      invariant GoodRanks(ranking, |boundaries|, i)
      invariant out == Joined(ranking, boundaries, i)
      invariant forall k :: k in seen <==> exists j :: 0 <= j < i && ranking[j].index == Some(k)
    {
      var r := ranking[i];
      if r.index.None? || !(0 <= r.index.value < |boundaries|) || r.index.value in seen || r.score.None? {
        assert !GoodRank(ranking, i, |boundaries|);
        return None;
      }
      assert GoodRank(ranking, i, |boundaries|) by {
        assert forall j :: 0 <= j < i && ranking[j].index == r.index ==> r.index.value in seen;
      }
      seen := seen + {r.index.value};
      out := out + [Chunk(boundaries[r.index.value], r.score.value)];
    }
    chunks := Some(out);
  }

  /** Whether the reranker was up, and what the synthesizer gets to see. */
  datatype Reranking = Reranking(ok: bool, chunks: seq<Chunk>)

  function Texts(boundaries: seq<Boundary>): (texts: seq<string>)
    ensures |texts| == |boundaries| && forall i :: 0 <= i < |texts| ==> texts[i] == boundaries[i].text
  {
    seq(|boundaries|, i requires 0 <= i < |boundaries| => boundaries[i].text)
  }

  /** Fused order with score 0, for when the reranker is down. */
  function Unranked(boundaries: seq<Boundary>): (chunks: seq<Chunk>)
    ensures |chunks| == |boundaries| && forall i :: 0 <= i < |chunks| ==> chunks[i] == Chunk(boundaries[i], 0.0)
  {
    seq(|boundaries|, i requires 0 <= i < |boundaries| => Chunk(boundaries[i], 0.0))
  }

  function Reranks(p: Providers, boundaries: seq<Boundary>): Fetch<Reranking> {
    match p.rerank(Texts(boundaries))
    case Errored(message) => Broke(message)
    case Unavailable(_) => Got(Reranking(false, Unranked(if |boundaries| <= TOP_N_SYNTH then boundaries
                                                         else boundaries[..TOP_N_SYNTH])))
    case Answered(ranking) =>
      var n := Cut(ranking, TOP_N_SYNTH);
      if GoodRanks(ranking, |boundaries|, n) then Got(Reranking(true, Joined(ranking, boundaries, n)))
      else Broke("joinRerankedToSynthInput")
  }

  method Rerank(p: Providers, boundaries: seq<Boundary>) returns (r: Fetch<Reranking>)
    ensures r == Reranks(p, boundaries)
  {
    match p.rerank(Texts(boundaries)) {
      case Errored(message) => return Broke(message);
      case Unavailable(_) =>
        return Got(Reranking(false, Unranked(if |boundaries| <= TOP_N_SYNTH then boundaries
                                             else boundaries[..TOP_N_SYNTH])));
      case Answered(ranking) =>
        var chunks := JoinRerankedToSynthInput(ranking, boundaries, TOP_N_SYNTH);
        if chunks.None? {
          return Broke("joinRerankedToSynthInput");
        }
        r := Got(Reranking(true, chunks.value));
    }
  }

  // ----- Synthesis, its citation check, and the one retry -----

  datatype Stage =
    | Cited(ids: seq<Id>, body: string, retried: bool)
    | Uncited(verdict: Citations.Verdict, retried: bool)
    | Down(message: string, retried: bool)
    | Crashed(message: string)

  function Verdict(answer: string, reranked: seq<Id>): Citations.Verdict {
    Citations.Check(Citations.Normalize(answer), reranked)
  }

  /** At most two calls, the second exactly when the first answer fails the check. */
  function Staged(synth: Synth, chunks: seq<Chunk>, reranked: seq<Id>): Stage {
    match synth.first(chunks)
    case Errored(message) => Crashed(message)
    case Unavailable(message) => Down(message, false)
    case Answered(answer) =>
      var v := Verdict(answer, reranked);
      if v.Valid? then Cited(v.ids, v.body, false)
      else
        match synth.retry(chunks)
        case Errored(message) => Crashed(message)
        case Unavailable(message) => Down(message, true)
        case Answered(second) =>
          var w := Verdict(second, reranked);
          if w.Valid? then Cited(w.ids, w.body, true) else Uncited(w, true)
  }

  method Synthesize(synth: Synth, chunks: seq<Chunk>, reranked: seq<Id>) returns (stage: Stage)
    ensures stage == Staged(synth, chunks, reranked)
  {
    var first := synth.first(chunks);
    if first.Errored? {
      return Crashed(first.message);
    }
    if first.Unavailable? {
      return Down(first.message, false);
    }
    var retried := false;
    var v := Citations.ValidateCitations(first.value, reranked);
    if !v.Valid? {
      retried := true;
      var second := synth.retry(chunks);
      if second.Errored? {
        return Crashed(second.message);
      }
      if second.Unavailable? {
        return Down(second.message, true);
      }
      v := Citations.ValidateCitations(second.value, reranked);
    }
    stage := if v.Valid? then Cited(v.ids, v.body, retried) else Uncited(v, retried);
  }

  function CodeOf(v: Citations.Verdict): Code {
    match v
    case Valid(_, _) => Accepted
    case SourcesBlockMissing => SourcesBlockMissing
    case MultipleSourcesBlocks(_) => MultipleSourcesBlocks
    case TrailingProse(_) => TrailingProse
    case SourcesBlockEmpty => SourcesBlockEmpty
    case InvalidUuid(_) => InvalidUuid
    case DuplicateId(_) => DuplicateId
    case HallucinatedId(_) => HallucinatedId
    case InlineSourcesMismatch(_, _) => InlineSourcesMismatch
  }

  function DetailFromValidation(v: Citations.Verdict): Detail {
    match v
    case InvalidUuid(offending) => Offending(offending)
    case DuplicateId(offending) => Offending(offending)
    case HallucinatedId(offending) => Offending(offending)
    case InlineSourcesMismatch(inlineOnly, sourcesOnly) => Mismatch(inlineOnly, sourcesOnly)
    case MultipleSourcesBlocks(count) => BlockCount(count)
    case TrailingProse(trailing) => Trailing(trailing)
    case _ => NoDetail
  }

  /** The code as the audit row and its error message spell it. */
  function CodeName(c: Code): string {
    match c
    case Accepted => "ok"
    case SourcesBlockMissing => "sources_block_missing"
    case MultipleSourcesBlocks => "multiple_sources_blocks"
    case TrailingProse => "trailing_prose_after_sources"
    case SourcesBlockEmpty => "sources_block_empty"
    case InvalidUuid => "invalid_uuid"
    case DuplicateId => "duplicate_id"
    case HallucinatedId => "hallucinated_id"
    case InlineSourcesMismatch => "inline_sources_mismatch"
  }

  /** Code and detail on the audit row keep everything a failed check found. */
  lemma AuditKeepsTheFailure(v: Citations.Verdict, w: Citations.Verdict)
    requires !v.Valid? && CodeOf(v) == CodeOf(w) && DetailFromValidation(v) == DetailFromValidation(w)
    ensures v == w
  {
  }

  // ----- The client -----

  datatype Status = Idle | Streaming | StatusDone | StatusChunksOnly | StatusNoContent | StatusFailed | StatusUnavailable

  datatype QueryState = QueryState(
    status: Status,
    query: string,
    candidates: seq<Card>,
    answer: string,
    citations: seq<Id>,
    snippets: seq<Snippet>,
    degraded: Option<bool>,
    reason: Option<Reason>,
    error: Option<string>)

  function StartStream(query: string): QueryState {
    QueryState(Streaming, query, [], "", [], [], None, None, None)
  }

  function ApplyEvent(s: QueryState, event: Event): QueryState {
    match event
    case Candidates(cards) => s.(candidates := cards)
    case AnswerDelta(text) => s.(answer := s.answer + text)
    case Done(citations, degraded, reason) =>
      s.(status := StatusDone, citations := citations,
         degraded := if degraded.Some? then degraded else s.degraded,
         reason := if reason.Some? then reason else s.reason)
    case ChunksOnly(snippets, reason) =>
      s.(status := StatusChunksOnly, snippets := snippets,
         reason := if reason.Some? then reason else s.reason,
         degraded := if reason.Some? then Some(true) else s.degraded)
    case NoContent(reason) =>
      s.(status := StatusNoContent,
         reason := if reason.Some? then reason else s.reason,
         degraded := if reason.Some? then Some(true) else s.degraded)
    case ErrorEvent(code) => s.(status := StatusFailed, error := Some(code))
  }

  function Play(s: QueryState, events: seq<Event>): QueryState
    decreases |events|
  {
    if events == [] then s else Play(ApplyEvent(s, events[0]), events[1..])
  }

  // ----- What a run promises -----

  /** no_content | candidates (answer_delta done | chunks_only), or candidates alone without a synthesizer. */
  predicate Grammar(events: seq<Event>, synth: bool) {
    || (|events| == 1 && events[0].NoContent?)
    || (!synth && |events| == 1 && events[0].Candidates?)
    || (synth && |events| == 2 && events[0].Candidates? && events[1].ChunksOnly?)
    || (synth && |events| == 3 && events[0].Candidates? && events[1].AnswerDelta? && events[2].Done?)
  }

  function SnippetIds(snippets: seq<Snippet>): (ids: seq<Id>)
    ensures |ids| == |snippets| && forall i :: 0 <= i < |snippets| ==> ids[i] == snippets[i].id
  {
    seq(|snippets|, i requires 0 <= i < |snippets| => snippets[i].id)
  }

  /** Some answer carries exactly these citations and this body, and passes the check. */
  ghost predicate Vouched(ids: seq<Id>, body: string, reranked: seq<Id>) {
    exists answer :: Verdict(answer, reranked) == Citations.Valid(ids, body)
  }

  /** What the user's screen says in the end is what the audit row says. */
  ghost predicate Agrees(screen: QueryState, o: Outcome) {
    && (screen.degraded == Some(true) <==> o.degraded)
    && screen.degraded != Some(false)
    && screen.reason == o.reason
    && screen.citations == o.citationIds
    && (o.degraded <==> o.reason.Some?)
    && match screen.status
       case StatusDone =>
         && o.status == StatusOk && o.validation == Some(Accepted)
         && Vouched(screen.citations, screen.answer, o.rerankedIds)
       case StatusChunksOnly =>
         && o.status == StatusError && o.validation != Some(Accepted)
         && (screen.reason == Some(CitationValidationFailed) <==> o.validation.Some?)
         && SnippetIds(screen.snippets) == o.rerankedIds
       case StatusNoContent => o.status == StatusOk && o.fusedIds == []
       case _ => false
  }

  /** The row carries an error exactly when its status says so, and after a failed check the error names the code. */
  predicate Recorded(o: Outcome) {
    && (o.status == StatusError <==> o.error.Some?)
    && (o.validation.Some? && o.validation != Some(Accepted) ==>
          o.error == Some(FAILED_PREFIX + CodeName(o.validation.value)))
  }

  predicate Within(small: seq<Id>, large: seq<Id>) {
    forall id :: id in small ==> id in large
  }

  /** citations from the reranked, those from the first five fused, and those from the lanes. */
  predicate Sourced(o: Outcome) {
    && Within(o.citationIds, o.rerankedIds)
    && Within(o.rerankedIds, Head(o.fusedIds, TOP_N_SYNTH))
    && |o.rerankedIds| <= TOP_N_SYNTH
    && Within(o.fusedIds, o.annIds + o.keywordIds)
    && |o.fusedIds| <= TOP_K
    && (o.keywordOnly ==> o.annIds == [] && o.fusedIds == Head(o.keywordIds, TOP_K))
  }

  function Head(ids: seq<Id>, n: nat): (r: seq<Id>)
    ensures r <= ids && |r| <= n
  {
    if |ids| <= n then ids else ids[..n]
  }

  // ----- The orchestrator -----

  function HitIds(hits: seq<Hit>): (ids: seq<Id>)
    ensures |ids| == |hits| && forall i :: 0 <= i < |hits| ==> ids[i] == hits[i].entry
  {
    seq(|hits|, i requires 0 <= i < |hits| => hits[i].entry)
  }

  function FusedIds(entries: seq<RankFusion.Fused>): (ids: seq<Id>)
    ensures |ids| == |entries| && forall i :: 0 <= i < |entries| ==> ids[i] == entries[i].id
  {
    seq(|entries|, i requires 0 <= i < |entries| => entries[i].id)
  }

  /** The fused order: the top of both lanes, or the keyword lane alone while the embedder is down. */
  ghost predicate Fuses(embedOk: bool, ann: seq<Id>, keyword: seq<Id>, k: nat, fused: seq<Id>)
    requires k > 0
  {
    if embedOk then
      exists entries :: RankFusion.IsTop([ann, keyword], k, TOP_K, entries) && fused == FusedIds(entries)
    else fused == Head(keyword, TOP_K)
  }

  /** The lanes that were read: `None` when a provider failed in a way the pipeline does not absorb. */
  function Lanes(p: Providers): Option<(bool, seq<Hit>, seq<Id>)> {
    match p.embed
    case Errored(_) => None
    case Unavailable(_) => if p.keyword.Broke? then None else Some((false, [], p.keyword.value))
    case Answered(v) =>
      if p.ann(v).Broke? || p.keyword.Broke? then None else Some((true, p.ann(v).value, p.keyword.value))
  }

  function ChunkIds(chunks: seq<Chunk>): (ids: seq<Id>)
    ensures |ids| == |chunks| && forall i :: 0 <= i < |chunks| ==> ids[i] == chunks[i].boundary.row.id
  {
    seq(|chunks|, i requires 0 <= i < |chunks| => chunks[i].boundary.row.id)
  }

  function Snippets(chunks: seq<Chunk>): (snippets: seq<Snippet>)
    ensures SnippetIds(snippets) == ChunkIds(chunks)
  {
    seq(|chunks|, i requires 0 <= i < |chunks| =>
      var row := chunks[i].boundary.row;
      Snippet(row.id, row.title, row.category, row.sensitivity, row.verifiedAt, chunks[i].boundary.text))
  }

  function Cards(preview: (string, string) -> string, boundaries: seq<Boundary>): (cards: seq<Card>)
    ensures |cards| == |boundaries| && forall i :: 0 <= i < |cards| ==> cards[i].row == boundaries[i].row
  {
    seq(|boundaries|, i requires 0 <= i < |boundaries| =>
      Card(boundaries[i].row, preview(boundaries[i].text, boundaries[i].row.title)))
  }

  function Base(embedOk: bool, ann: seq<Id>, keyword: seq<Id>, fused: seq<Id>): Outcome {
    Outcome(ann, keyword, fused, [], [], !embedOk, false, None, StatusOk, None, None, NoDetail, false, None)
  }

  function Retried(o: Outcome, retried: bool): Outcome {
    o.(retryAttempted := retried, retryPrefixHash := if retried then Some(RETRY_PREFIX_HASH) else None)
  }

  /** How a synthesis stage ends the stream and fills the rest of the audit row. */
  function Ended(stage: Stage, events: seq<Event>, ranked: Outcome, embedOk: bool, reranking: Reranking): Run {
    match stage
    case Crashed(message) => Throws(events, message)
    case Down(message, retried) =>
      var reason := MapDegradedReason(embedOk, reranking.ok, false, true);
      Returns(events + [ChunksOnly(Snippets(reranking.chunks), reason)],
              Retried(ranked, retried).(degraded := true, reason := reason,
                                        status := StatusError, error := Some(message)))
    case Uncited(verdict, retried) =>
      Returns(events + [ChunksOnly(Snippets(reranking.chunks), Some(CitationValidationFailed))],
              Retried(ranked, retried).(degraded := true, reason := Some(CitationValidationFailed),
                                        validation := Some(CodeOf(verdict)), detail := DetailFromValidation(verdict),
                                        status := StatusError,
                                        error := Some(FAILED_PREFIX + CodeName(CodeOf(verdict)))))
    case Cited(ids, body, retried) =>
      var reason := MapDegradedReason(embedOk, reranking.ok, true, true);
      Returns(events + [AnswerDelta(body), Done(ids, if reason.Some? then Some(true) else None, reason)],
              Retried(ranked, retried).(degraded := reason.Some?, reason := reason, citationIds := ids,
                                        validation := Some(Accepted)))
  }

  /** The whole run, given the lanes and the fused order. */
  function Told(p: Providers, embedOk: bool, hits: seq<Hit>, keyword: seq<Id>, fused: seq<Id>): Run {
    var base := Base(embedOk, HitIds(hits), keyword, fused);
    if fused == [] then
      var reason := if embedOk then None else Some(NoKeywordMatchUnderEmbedOutage);
      Returns([NoContent(reason)], base.(degraded := !embedOk, reason := reason))
    else
      var bound := Hydrated(p, hits, fused);
      if bound.Broke? then Throws([], bound.message)
      else
        var events := [Candidates(Cards(p.preview, bound.value))];
        var reranking := Reranks(p, bound.value);
        if reranking.Broke? then Throws(events, reranking.message)
        else
          var ranked := base.(rerankedIds := ChunkIds(reranking.value.chunks));
          if p.synth.None? then
            var reason := MapDegradedReason(embedOk, reranking.value.ok, true, true);
            Returns(events, ranked.(degraded := !embedOk || !reranking.value.ok, reason := reason))
          else
            Ended(Staged(p.synth.value, reranking.value.chunks, ranked.rerankedIds), events, ranked, embedOk,
                  reranking.value)
  }

  method RetrievePipeline(p: Providers, query: string, k: nat) returns (r: Run, ghost fused: seq<Id>)
    requires 1 <= k <= RankFusion.MAX_PARAMETER
    ensures Consistent(p, query, k, r)
    ensures Lanes(p).None? ==> r.Throws? && r.events == []
    ensures Lanes(p).Some? ==>
      var (embedOk, hits, keyword) := Lanes(p).value;
      Fuses(embedOk, HitIds(hits), keyword, k, fused) && r == Told(p, embedOk, hits, keyword, fused)
  {
    fused := [];
    // Stage A
    var embedOk := true;
    var hits: seq<Hit> := [];
    if p.embed.Errored? {
      return Throws([], p.embed.message), [];
    }
    // Stages B and B'
    if p.embed.Unavailable? {
      embedOk := false;
    } else {
      var ann := p.ann(p.embed.value);
      if ann.Broke? {
        return Throws([], ann.message), [];
      }
      hits := ann.value;
    }
    if p.keyword.Broke? {
      return Throws([], p.keyword.message), [];
    }
    var keyword := p.keyword.value;
    assert Lanes(p) == Some((embedOk, hits, keyword));
    var fusedIds := Fuse(embedOk, HitIds(hits), keyword, k);
    fused := fusedIds;
    r := AfterFusion(p, embedOk, hits, keyword, fusedIds);
    ToldIsConsistent(p, query, k, embedOk, hits, keyword, fusedIds);
  }

  method AfterFusion(p: Providers, embedOk: bool, hits: seq<Hit>, keyword: seq<Id>, fused: seq<Id>) returns (r: Run)
    requires !embedOk ==> hits == []
    ensures r == Told(p, embedOk, hits, keyword, fused)
  {
    hide Hydrated;
    hide Reranks;
    hide Staged;
    var base := Base(embedOk, HitIds(hits), keyword, fused);
    if fused == [] {
      if !embedOk {
        return Returns([NoContent(Some(NoKeywordMatchUnderEmbedOutage))],
                       base.(degraded := true, reason := Some(NoKeywordMatchUnderEmbedOutage)));
      }
      return Returns([NoContent(None)], base);
    }
    var bound := Hydrate(p, embedOk, hits, fused);
    if bound.Broke? {
      return Throws([], bound.message);
    }
    var events := [Candidates(Cards(p.preview, bound.value))];
    // Stage C
    var reranking := Rerank(p, bound.value);
    if reranking.Broke? {
      return Throws(events, reranking.message);
    }
    var chunks := reranking.value.chunks;
    var ranked := base.(rerankedIds := ChunkIds(chunks));
    if p.synth.None? {
      var reason := MapDegradedReason(embedOk, reranking.value.ok, true, true);
      return Returns(events, ranked.(degraded := !embedOk || !reranking.value.ok, reason := reason));
    }
    // Stage D
    var stage := Synthesize(p.synth.value, chunks, ranked.rerankedIds);
    r := Ended(stage, events, ranked, embedOk, reranking.value);
  }

  method Fuse(embedOk: bool, ann: seq<Id>, keyword: seq<Id>, k: nat) returns (fused: seq<Id>)
    requires 1 <= k <= RankFusion.MAX_PARAMETER
    ensures Fuses(embedOk, ann, keyword, k, fused)
  {
    if embedOk {
      var top := RankFusion.RrfFuse([ann, keyword], k, TOP_K);
      fused := FusedIds(top.entries);
    } else {
      fused := Head(keyword, TOP_K);
    }
  }

  // ----- Stream, screen and audit row tell one story -----

  ghost predicate Consistent(p: Providers, query: string, k: nat, r: Run)
    requires k > 0
  {
    match r
    case Throws(events, _) => events == [] || (|events| == 1 && events[0].Candidates?)
    case Returns(events, o) =>
      && Grammar(events, p.synth.Some?)
      && Sourced(o)
      && Recorded(o)
      && (p.synth.Some? ==> Agrees(Play(StartStream(query), events), o))
      && (o.retryPrefixHash.Some? <==> o.retryAttempted)
      && Fuses(!o.keywordOnly, o.annIds, o.keywordIds, k, o.fusedIds)
  }

  lemma FusedComesFromLanes(embedOk: bool, ann: seq<Id>, keyword: seq<Id>, k: nat, fused: seq<Id>)
    requires k > 0 && Fuses(embedOk, ann, keyword, k, fused)
    ensures Within(fused, ann + keyword) && |fused| <= TOP_K
  {
  }

  lemma RerankedComesFromFused(p: Providers, hits: seq<Hit>, fused: seq<Id>)
    requires Hydrated(p, hits, fused).Got? && Reranks(p, Hydrated(p, hits, fused).value).Got?
    ensures var ids := ChunkIds(Reranks(p, Hydrated(p, hits, fused).value).value.chunks);
      Within(ids, Head(fused, TOP_N_SYNTH)) && |ids| <= TOP_N_SYNTH
  {
  }

  function Identity(n: nat): (ranking: seq<Ranked>)
    ensures |ranking| == n && forall i :: 0 <= i < n ==> ranking[i] == Ranked(Some(i), Some(0.0))
  {
    seq(n, i requires 0 <= i < n => Ranked(Some(i), Some(0.0)))
  }

  /** A reranker that is down does what one would that returned the fused order with score 0. */
  lemma OutageKeepsFusedOrder(p: Providers, boundaries: seq<Boundary>, other: seq<string> -> Call<seq<Ranked>>)
    requires p.rerank(Texts(boundaries)).Unavailable?
    requires other(Texts(boundaries)) == Answered(Identity(|boundaries|))
    ensures Reranks(p, boundaries).Got? && Reranks(p.(rerank := other), boundaries).Got?
    ensures Reranks(p, boundaries).value.chunks == Reranks(p.(rerank := other), boundaries).value.chunks
  {
    var ranking := Identity(|boundaries|);
    var n := Cut(ranking, TOP_N_SYNTH);
    assert GoodRanks(ranking, |boundaries|, n);
    forall i | 0 <= i < n
      ensures Joined(ranking, boundaries, n)[i] == Chunk(boundaries[i], 0.0)
    {
      assert GoodRank(ranking, i, |boundaries|);
    }
    assert Unranked(if |boundaries| <= TOP_N_SYNTH then boundaries else boundaries[..TOP_N_SYNTH])
        == Joined(ranking, boundaries, n);
  }

  lemma CitedComesFromReranked(synth: Synth, chunks: seq<Chunk>, reranked: seq<Id>)
    ensures var stage := Staged(synth, chunks, reranked);
      && (stage.Cited? ==> Within(stage.ids, reranked) && Vouched(stage.ids, stage.body, reranked))
      && (stage.Uncited? ==> !stage.verdict.Valid?)
  {
    hide Citations.Check;
    var stage := Staged(synth, chunks, reranked);
    var first, second := synth.first(chunks), synth.retry(chunks);
    if stage.Cited? {
      var answer := if stage.retried then second.value else first.value;
      assert Verdict(answer, reranked) == Citations.Valid(stage.ids, stage.body);
      Citations.ValidIff(Citations.Normalize(answer), reranked, stage.ids, stage.body);
    }
  }

  lemma PlayStep(s: QueryState, events: seq<Event>)
    requires events != []
    ensures Play(s, events) == Play(ApplyEvent(s, events[0]), events[1..])
  {
  }

  lemma PlayOne(s: QueryState, event: Event)
    ensures Play(s, [event]) == ApplyEvent(s, event)
  {
    assert [event][1..] == [];
  }

  lemma PlayTwo(s: QueryState, a: Event, b: Event)
    ensures Play(s, [a, b]) == ApplyEvent(ApplyEvent(s, a), b)
  {
    PlayStep(s, [a, b]);
    assert [a, b][1..] == [b];
    PlayOne(ApplyEvent(s, a), b);
  }

  lemma PlayThree(s: QueryState, a: Event, b: Event, c: Event)
    ensures Play(s, [a, b, c]) == ApplyEvent(ApplyEvent(ApplyEvent(s, a), b), c)
  {
    PlayStep(s, [a, b, c]);
    assert [a, b, c][1..] == [b, c];
    PlayTwo(ApplyEvent(s, a), b, c);
  }

  lemma EndedIsConsistent(p: Providers, query: string, k: nat, stage: Stage, cards: seq<Card>, ranked: Outcome,
                          embedOk: bool, reranking: Reranking)
    requires k > 0 && p.synth.Some? && Sourced(ranked) && ranked.citationIds == []
    requires stage.Cited? ==> Within(stage.ids, ranked.rerankedIds) && Vouched(stage.ids, stage.body, ranked.rerankedIds)
    requires stage.Uncited? ==> !stage.verdict.Valid?
    requires Fuses(!ranked.keywordOnly, ranked.annIds, ranked.keywordIds, k, ranked.fusedIds)
    requires ranked.rerankedIds == ChunkIds(reranking.chunks)
    requires ranked.status == StatusOk && ranked.validation.None? && ranked.error.None?
    ensures Consistent(p, query, k, Ended(stage, [Candidates(cards)], ranked, embedOk, reranking))
  {
    var r := Ended(stage, [Candidates(cards)], ranked, embedOk, reranking);
    var s := StartStream(query);
    hide Fuses;
    hide Play;
    hide Vouched;
    if r.Returns? {
      if stage.Cited? {
        assert r.events == [Candidates(cards), r.events[1], r.events[2]];
        PlayThree(s, Candidates(cards), r.events[1], r.events[2]);
        assert "" + stage.body == stage.body;
      } else {
        assert r.events == [Candidates(cards), r.events[1]];
        PlayTwo(s, Candidates(cards), r.events[1]);
      }
      assert Agrees(Play(s, r.events), r.outcome);
    }
  }

  /** The flag on the audit row: degraded exactly when some provider on the way was down or never cited properly. */
  lemma DegradedIff(p: Providers, embedOk: bool, hits: seq<Hit>, keyword: seq<Id>, fused: seq<Id>)
    ensures var r := Told(p, embedOk, hits, keyword, fused);
      r.Returns? ==>
        if fused == [] then r.outcome.degraded <==> !embedOk
        else
          var reranking := Reranks(p, Hydrated(p, hits, fused).value).value;
          r.outcome.degraded <==>
            || !embedOk
            || !reranking.ok
            || (p.synth.Some? && !Staged(p.synth.value, reranking.chunks, r.outcome.rerankedIds).Cited?)
  {
    hide Hydrated;
    hide Reranks;
    hide Staged;
  }

  /** The second call happens only after an answer that failed the check: otherwise it cannot matter. */
  lemma RetryOnlyAfterAFailedAnswer(synth: Synth, other: seq<Chunk> -> Call<string>, chunks: seq<Chunk>, reranked: seq<Id>)
    ensures var first := synth.first(chunks);
      var stage := Staged(synth, chunks, reranked);
      var failed := first.Answered? && !Verdict(first.value, reranked).Valid?;
      && (!failed ==> Staged(Synth(synth.first, other), chunks, reranked) == stage)
      && (!stage.Crashed? ==> (stage.retried <==> failed))
      && (stage.Uncited? ==> stage.retried && stage.verdict == Verdict(synth.retry(chunks).value, reranked))
  {
    hide Verdict;
  }

  lemma BoundariesAreDistinct(p: Providers, hits: seq<Hit>, fused: seq<Id>)
    requires Distinct(fused) && Hydrated(p, hits, fused).Got?
    ensures DistinctRows(Hydrated(p, hits, fused).value)
  {
    assert Distinct(Head(fused, TOP_N_SYNTH));
  }

  predicate DistinctRows(boundaries: seq<Boundary>) {
    forall i, j :: 0 <= i < j < |boundaries| ==> boundaries[i].row.id != boundaries[j].row.id
  }

  lemma JoinedAreDistinct(ranking: seq<Ranked>, boundaries: seq<Boundary>, n: nat)
    requires n <= |ranking| && GoodRanks(ranking, |boundaries|, n) && DistinctRows(boundaries)
    ensures Distinct(ChunkIds(Joined(ranking, boundaries, n)))
  {
    var chunks := Joined(ranking, boundaries, n);
    hide Joined;
    forall i, j | 0 <= i < j < |chunks|
      ensures ChunkIds(chunks)[i] != ChunkIds(chunks)[j]
    {
      assert GoodRank(ranking, i, |boundaries|) && GoodRank(ranking, j, |boundaries|);
    }
  }

  /** No entry reaches the synthesizer, the screen or the audit row twice. */
  lemma RerankedIdsAreDistinct(p: Providers, hits: seq<Hit>, fused: seq<Id>)
    requires Distinct(fused)
    requires Hydrated(p, hits, fused).Got? && Reranks(p, Hydrated(p, hits, fused).value).Got?
    ensures Distinct(ChunkIds(Reranks(p, Hydrated(p, hits, fused).value).value.chunks))
  {
    BoundariesAreDistinct(p, hits, fused);
    var boundaries := Hydrated(p, hits, fused).value;
    hide Hydrated;
    hide Joined;
    hide GoodRanks;
    var ranking := p.rerank(Texts(boundaries));
    if ranking.Answered? {
      JoinedAreDistinct(ranking.value, boundaries, Cut(ranking.value, TOP_N_SYNTH));
    }
  }

  lemma {:induction false} FusedIdsAreDistinct(ann: seq<Id>, keyword: seq<Id>, k: nat, fused: seq<Id>)
    requires k > 0 && Fuses(true, ann, keyword, k, fused)
    ensures Distinct(fused)
  {
    var entries: seq<RankFusion.Fused> :| RankFusion.IsTop([ann, keyword], k, TOP_K, entries) && fused == FusedIds(entries);
    forall i, j | 0 <= i < j < |fused|
      ensures fused[i] != fused[j]
    {
      assert RankFusion.Ahead([ann, keyword], k, entries[i].id, entries[j].id);
      RankFusion.AheadIsTotalOrder([ann, keyword], k, entries[i].id, entries[j].id, entries[j].id);
    }
  }

  /** Every run, whatever the providers answer, tells stream, screen and audit row the same story. */
  lemma ToldIsConsistent(p: Providers, query: string, k: nat, embedOk: bool, hits: seq<Hit>, keyword: seq<Id>,
                         fused: seq<Id>)
    requires k > 0 && Fuses(embedOk, HitIds(hits), keyword, k, fused) && (!embedOk ==> hits == [])
    ensures Consistent(p, query, k, Told(p, embedOk, hits, keyword, fused))
  {
    FusedComesFromLanes(embedOk, HitIds(hits), keyword, k, fused);
    var r := Told(p, embedOk, hits, keyword, fused);
    assert !embedOk ==> fused == Head(keyword, TOP_K);
    hide Fuses;
    var base := Base(embedOk, HitIds(hits), keyword, fused);
    if fused == [] {
      hide Play;
      PlayOne(StartStream(query), r.events[0]);
    } else {
      var bound := Hydrated(p, hits, fused);
      if bound.Got? && Reranks(p, bound.value).Got? {
        var reranking := Reranks(p, bound.value).value;
        RerankedComesFromFused(p, hits, fused);
        var ranked := base.(rerankedIds := ChunkIds(reranking.chunks));
        hide Hydrated;
        hide Reranks;
        assert Sourced(ranked);
        if p.synth.Some? {
          CitedComesFromReranked(p.synth.value, reranking.chunks, ranked.rerankedIds);
          hide Staged;
          EndedIsConsistent(p, query, k, Staged(p.synth.value, reranking.chunks, ranked.rerankedIds),
                            Cards(p.preview, bound.value), ranked, embedOk, reranking);
          hide Ended;
        }
      }
    }
  }
}
