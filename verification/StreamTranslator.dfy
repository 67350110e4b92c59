/** Translation of the provider's raw message stream into agent events (lib/agents-anthropic.ts). */
module StreamTranslator {
  import opened Options

  datatype SdkStopReason = EndTurn | ToolUse | MaxTokens | Refusal | StopSequence | PauseTurn | Unlisted

  datatype BlockKind = TextBlock | ToolBlock(id: string, name: string)

  datatype RawEvent =
    | MessageStart
    | BlockStart(index: int, kind: BlockKind)
    | TextDelta(index: int, text: string)
    | JsonDelta(index: int, part: string)
    | OtherDelta(index: int)
    | BlockStop(index: int)
    | MessageDelta(reason: Option<SdkStopReason>)
    | MessageStop

  datatype DoneReason = DoneEndTurn | DoneToolUse | DoneMaxTokens | DoneRefusal

  datatype AgentEvent<+J> =
    | Text(text: string)
    | ToolUseStart(id: string, name: string, input: J)
    | TruncatedToolUse(unfinished: nat)
    | Done(reason: DoneReason)

  datatype Buffer = Buffer(id: string, name: string, json: string)

  /** How the generator ended: message_stop, end of stream without one, or a JSON.parse throw. */
  datatype End = Stopped | Exhausted | Threw

  function TranslateStopReason(r: Option<SdkStopReason>): DoneReason {
    match r
    case Some(EndTurn) => DoneEndTurn
    case Some(ToolUse) => DoneToolUse
    case Some(MaxTokens) => DoneMaxTokens
    case Some(Refusal) => DoneRefusal
    case Some(StopSequence) => DoneEndTurn
    case Some(PauseTurn) => DoneEndTurn
    case Some(Unlisted) => DoneEndTurn
    case None => DoneEndTurn
  }

  /** `JSON.parse`, except that an empty buffer stands for an object without fields. */
  datatype Parser<!J> = Parser(parse: string -> Option<J>, empty: J) {
    function Input(json: string): Option<J> {
      if json == "" then Some(empty) else parse(json)
    }
  }

  // ----- What each event means, from the events before it -----

  predicate StartsTool(e: RawEvent, i: int) {
    e.BlockStart? && e.index == i && e.kind.ToolBlock?
  }

  predicate Touches(e: RawEvent, i: int) {
    StartsTool(e, i) || e == BlockStop(i)
  }

  /** The tool block open at index `i` after `history`, with the JSON gathered for it. */
  function OpenAt(history: seq<RawEvent>, i: int): Option<Buffer> {
    if history == [] then None
    else
      var before, e := OpenAt(history[..|history| - 1], i), history[|history| - 1];
      if StartsTool(e, i) then Some(Buffer(e.kind.id, e.kind.name, ""))
      else if e == BlockStop(i) then None
      else if e.JsonDelta? && e.index == i && before.Some? then
        Some(before.value.(json := before.value.json + e.part))
      else before
  }

  ghost function OpenIndices(history: seq<RawEvent>): set<int> {
    set e | e in history && e.BlockStart? && OpenAt(history, e.index).Some? :: e.index
  }

  /** The stop reason last announced. */
  function LastReason(history: seq<RawEvent>): Option<SdkStopReason> {
    if history == [] then None
    else
      var e := history[|history| - 1];
      if e.MessageDelta? then e.reason else LastReason(history[..|history| - 1])
  }

  /** Closing this block would make JSON.parse throw. */
  ghost predicate Fails<J>(p: Parser<J>, history: seq<RawEvent>, e: RawEvent) {
    e.BlockStop? && OpenAt(history, e.index).Some? && p.Input(OpenAt(history, e.index).value.json).None?
  }

  ghost function Emitted<J>(p: Parser<J>, history: seq<RawEvent>, e: RawEvent): seq<AgentEvent<J>>
    requires !Fails(p, history, e)
  {
    match e
    case TextDelta(_, text) => [Text(text)]
    case BlockStop(i) =>
      var b := OpenAt(history, i);
      if b.None? then [] else [ToolUseStart(b.value.id, b.value.name, p.Input(b.value.json).value)]
    case MessageStop =>
      var open := OpenIndices(history);
      (if open == {} then [] else [TruncatedToolUse(|open|)]) + [Done(TranslateStopReason(LastReason(history)))]
    case _ => []
  }

  ghost predicate Fine<J>(p: Parser<J>, events: seq<RawEvent>) {
    forall k :: 0 <= k < |events| ==> !Fails(p, events[..k], events[k])
  }

  /** Everything the translator yields for these events. */
  ghost function Output<J>(p: Parser<J>, events: seq<RawEvent>): seq<AgentEvent<J>>
    requires Fine(p, events)
  {
    if events == [] then []
    else
      var n := |events| - 1;
      FinePrefix(p, events);
      Output(p, events[..n]) + Emitted(p, events[..n], events[n])
  }

  lemma FinePrefix<J>(p: Parser<J>, events: seq<RawEvent>)
    requires Fine(p, events) && events != []
    ensures Fine(p, events[..|events| - 1])
  {
    forall k | 0 <= k < |events| - 1
      ensures !Fails(p, events[..|events| - 1][..k], events[k])
    {
      assert events[..|events| - 1][..k] == events[..k];
    }
  }

  lemma FineAppend<J>(p: Parser<J>, events: seq<RawEvent>, e: RawEvent)
    requires Fine(p, events) && !Fails(p, events, e)
    ensures Fine(p, events + [e])
    ensures Output(p, events + [e]) == Output(p, events) + Emitted(p, events, e)
  {
    var all := events + [e];
    assert all[..|events|] == events;
    forall k | 0 <= k < |all|
      ensures !Fails(p, all[..k], all[k])
    {
      assert k < |events| ==> all[..k] == events[..k];
    }
  }

  // ----- The generator -----

  lemma OpenAtAppend(history: seq<RawEvent>, e: RawEvent, i: int)
    ensures OpenAt(history + [e], i) ==
            if StartsTool(e, i) then Some(Buffer(e.kind.id, e.kind.name, ""))
            else if e == BlockStop(i) then None
            else if e.JsonDelta? && e.index == i && OpenAt(history, i).Some? then
              Some(OpenAt(history, i).value.(json := OpenAt(history, i).value.json + e.part))
            else OpenAt(history, i)
  {
    assert (history + [e])[..|history|] == history;
  }

  /** The buffer map holds exactly the open blocks. */
  ghost predicate Buffers(buffers: map<int, Buffer>, history: seq<RawEvent>) {
    forall i :: if i in buffers then OpenAt(history, i) == Some(buffers[i]) else OpenAt(history, i) == None
  }

  lemma {:induction false} OpenWasStarted(history: seq<RawEvent>, i: int)
    requires OpenAt(history, i).Some?
    ensures exists e :: e in history && StartsTool(e, i)
  {
    var rest, e := history[..|history| - 1], history[|history| - 1];
    if !StartsTool(e, i) {
      OpenWasStarted(rest, i);
      var f :| f in rest && StartsTool(f, i);
      assert f in history;
    }
  }

  lemma BufferKeys(buffers: map<int, Buffer>, history: seq<RawEvent>)
    requires Buffers(buffers, history)
    ensures buffers.Keys == OpenIndices(history)
  {
    forall i | i in buffers
      ensures i in OpenIndices(history)
    {
      OpenWasStarted(history, i);
    }
  }

  /** How one event changes the buffer map. */
  function NextBuffers(buffers: map<int, Buffer>, e: RawEvent): map<int, Buffer> {
    match e
    case BlockStart(i, ToolBlock(id, name)) => buffers[i := Buffer(id, name, "")]
    case JsonDelta(i, part) => if i in buffers then buffers[i := buffers[i].(json := buffers[i].json + part)] else buffers
    case BlockStop(i) => buffers - {i}
    case _ => buffers
  }

  lemma BuffersFollow(buffers: map<int, Buffer>, history: seq<RawEvent>, e: RawEvent)
    requires Buffers(buffers, history)
    ensures Buffers(NextBuffers(buffers, e), history + [e])
  {
    forall i: int {
      OpenAtAppend(history, e, i);
    }
    hide OpenAt;
  }

  predicate Throws<J>(p: Parser<J>, buffers: map<int, Buffer>, e: RawEvent) {
    e.BlockStop? && e.index in buffers && p.Input(buffers[e.index].json).None?
  }

  /** What an event yields, read off the buffer map and the captured stop reason. */
  function Yielded<J>(p: Parser<J>, buffers: map<int, Buffer>, reason: Option<SdkStopReason>, e: RawEvent)
    : seq<AgentEvent<J>>
    requires !Throws(p, buffers, e)
  {
    match e
    case TextDelta(_, text) => [Text(text)]
    case BlockStop(i) =>
      if i in buffers then [ToolUseStart(buffers[i].id, buffers[i].name, p.Input(buffers[i].json).value)] else []
    case MessageStop =>
      (if |buffers| > 0 then [TruncatedToolUse(|buffers|)] else []) + [Done(TranslateStopReason(reason))]
    case _ => []
  }

  lemma EmittedFromBuffers<J>(
      p: Parser<J>, buffers: map<int, Buffer>, reason: Option<SdkStopReason>, history: seq<RawEvent>, e: RawEvent)
    requires Buffers(buffers, history) && reason == LastReason(history)
    ensures Fails(p, history, e) <==> Throws(p, buffers, e)
    ensures !Fails(p, history, e) ==> (Emitted(p, history, e) == Yielded(p, buffers, reason, e))
  {
    BufferKeys(buffers, history);
    assert |buffers| == |buffers.Keys|;
    hide OpenAt;
  }

  /** The switch: one raw event against the buffers and the captured stop reason. */
  method HandleEvent<J>(p: Parser<J>, buffers: map<int, Buffer>, reason: Option<SdkStopReason>, e: RawEvent)
    returns (buffers': map<int, Buffer>, reason': Option<SdkStopReason>, out: seq<AgentEvent<J>>, threw: bool)
    ensures threw <==> Throws(p, buffers, e)
    ensures !threw ==> out == Yielded(p, buffers, reason, e)
    ensures !threw && e != MessageStop ==> buffers' == NextBuffers(buffers, e)
    ensures reason' == if e.MessageDelta? then e.reason else reason
  {
    buffers', reason', out, threw := buffers, reason, [], false;
    match e {
      case MessageStart =>
      case BlockStart(index, kind) =>
        if kind.ToolBlock? {
          buffers' := buffers[index := Buffer(kind.id, kind.name, "")];
        }
      case TextDelta(_, text) =>
        out := [Text(text)];
      case JsonDelta(index, part) =>
        if index in buffers {
          buffers' := buffers[index := buffers[index].(json := buffers[index].json + part)];
        }
      case OtherDelta(_) =>
      case BlockStop(index) =>
        buffers' := buffers - {index};
        if index in buffers {
          var parsed := p.Input(buffers[index].json);
          if parsed.None? {
            threw := true;
          } else {
            out := [ToolUseStart(buffers[index].id, buffers[index].name, parsed.value)];
          }
        }
      case MessageDelta(r) =>
        reason' := r;
      case MessageStop =>
        if |buffers| > 0 {
          out := [TruncatedToolUse(|buffers|)];
          buffers' := map[];
        }
        out := out + [Done(TranslateStopReason(reason))];
    }
  }

  lemma LastReasonAppend(history: seq<RawEvent>, e: RawEvent)
    ensures LastReason(history + [e]) == if e.MessageDelta? then e.reason else LastReason(history)
  {
    assert (history + [e])[..|history|] == history;
  }

  method StreamFromAnthropic<J>(p: Parser<J>, events: seq<RawEvent>)
    returns (out: seq<AgentEvent<J>>, consumed: nat, end: End)
    ensures consumed <= |events| && Fine(p, events[..consumed])
    ensures out == Output(p, events[..consumed])
    ensures forall k :: 0 <= k < consumed && events[k] == MessageStop ==> end == Stopped && k == consumed - 1
    ensures end == Stopped ==> consumed > 0 && events[consumed - 1] == MessageStop
    ensures end == Exhausted ==> consumed == |events|
    ensures end == Threw ==> consumed < |events| && Fails(p, events[..consumed], events[consumed])
  {
    out, consumed := [], 0;
    var toolBuffers: map<int, Buffer> := map[];
    var capturedStopReason: Option<SdkStopReason> := None;
    assert Buffers(toolBuffers, events[..0]);
    hide OpenAt;
    hide Buffers;
    hide Emitted;
    hide Fails;
    hide LastReason;
    hide OpenIndices;
    hide NextBuffers;
    hide Yielded;
    hide Throws;
    while consumed < |events|
      invariant consumed <= |events| && Fine(p, events[..consumed])
      invariant out == Output(p, events[..consumed])
      invariant forall k :: 0 <= k < consumed ==> events[k] != MessageStop
      invariant Buffers(toolBuffers, events[..consumed])
      invariant capturedStopReason == LastReason(events[..consumed])
    {
      var e := events[consumed];
      ghost var history := events[..consumed];
      assert events[..consumed + 1] == history + [e];
      hide Fine;
      hide Output;
      EmittedFromBuffers(p, toolBuffers, capturedStopReason, history, e);
      BuffersFollow(toolBuffers, history, e);
      LastReasonAppend(history, e);
      var yielded, threw;
      toolBuffers, capturedStopReason, yielded, threw := HandleEvent(p, toolBuffers, capturedStopReason, e);
      if threw {
        end := Threw;
        return;
      }
      FineAppend(p, history, e);
      out := out + yielded;
      consumed := consumed + 1;
      if e == MessageStop {
        end := Stopped;
        return;
      }
    }
    end := Exhausted;
  }

  // ----- One tool block, whatever is interleaved with it -----

  /** The JSON fragments of index `i`, in order. */
  function JsonOf(events: seq<RawEvent>, i: int): string {
    if events == [] then ""
    else
      var rest, e := JsonOf(events[..|events| - 1], i), events[|events| - 1];
      if e.JsonDelta? && e.index == i then rest + e.part else rest
  }

  lemma {:induction false} BlockGathersItsOwnJson(
      history: seq<RawEvent>, i: int, id: string, name: string, during: seq<RawEvent>)
    requires forall e :: e in during ==> !Touches(e, i)
    ensures OpenAt(history + [BlockStart(i, ToolBlock(id, name))] + during, i)
            == Some(Buffer(id, name, JsonOf(during, i)))
    decreases |during|
  {
    var start := history + [BlockStart(i, ToolBlock(id, name))];
    if during == [] {
      assert start + during == start;
      OpenAtAppend(history, BlockStart(i, ToolBlock(id, name)), i);
    } else {
      var n := |during| - 1;
      BlockGathersItsOwnJson(history, i, id, name, during[..n]);
      assert start + during == start + during[..n] + [during[n]];
      assert during[n] in during && !Touches(during[n], i);
      OpenAtAppend(start + during[..n], during[n], i);
      hide OpenAt;
    }
  }

  /** A tool block that is closed yields one event, with the concatenation of its own fragments. */
  lemma ToolBlockYieldsItsInput<J>(
      p: Parser<J>, history: seq<RawEvent>, i: int, id: string, name: string, during: seq<RawEvent>)
    requires forall e :: e in during ==> !Touches(e, i)
    ensures var before := history + [BlockStart(i, ToolBlock(id, name))] + during;
            if p.Input(JsonOf(during, i)).None? then Fails(p, before, BlockStop(i))
            else !Fails(p, before, BlockStop(i))
                 && Emitted(p, before, BlockStop(i)) == [ToolUseStart(id, name, p.Input(JsonOf(during, i)).value)]
  {
    BlockGathersItsOwnJson(history, i, id, name, during);
  }

  predicate At(e: RawEvent, i: int) {
    (e.BlockStart? || e.TextDelta? || e.JsonDelta? || e.OtherDelta? || e.BlockStop?) && e.index == i
  }

  /** The events of one content block index. */
  function Only(events: seq<RawEvent>, i: int): seq<RawEvent> {
    if events == [] then []
    else
      var rest, e := Only(events[..|events| - 1], i), events[|events| - 1];
      if At(e, i) then rest + [e] else rest
  }

  /** Two streams with the same events per index keep the same blocks open: interleaving is invisible. */
  lemma {:induction false} InterleavingIsInvisible(events: seq<RawEvent>, i: int)
    ensures OpenAt(events, i) == OpenAt(Only(events, i), i)
  {
    if events != [] {
      var n := |events| - 1;
      InterleavingIsInvisible(events[..n], i);
      OpenAtAppend(Only(events[..n], i), events[n], i);
    }
  }

  // ----- Every tool block is accounted for once -----

  function ToolStarts(events: seq<RawEvent>): nat {
    if events == [] then 0
    else
      var e := events[|events| - 1];
      ToolStarts(events[..|events| - 1]) + if e.BlockStart? && e.kind.ToolBlock? then 1 else 0
  }

  /** Starts at an index whose block was still open; the earlier block is lost. */
  function Replaced(events: seq<RawEvent>): nat {
    if events == [] then 0
    else
      var rest, e := events[..|events| - 1], events[|events| - 1];
      Replaced(rest) + if e.BlockStart? && e.kind.ToolBlock? && OpenAt(rest, e.index).Some? then 1 else 0
  }

  ghost function ToolEvents<J>(out: seq<AgentEvent<J>>): nat {
    if out == [] then 0 else ToolEvents(out[..|out| - 1]) + if out[|out| - 1].ToolUseStart? then 1 else 0
  }

  lemma ToolEventsOfOne<J>(out: seq<AgentEvent<J>>, more: seq<AgentEvent<J>>)
    requires |more| <= 1
    ensures ToolEvents(out + more) == ToolEvents(out) + if |more| == 1 && more[0].ToolUseStart? then 1 else 0
  {
    if more == [] {
      assert out + more == out;
    } else {
      assert (out + more)[..|out|] == out;
    }
  }

  lemma OpenIndicesAre(history: seq<RawEvent>, i: int)
    ensures i in OpenIndices(history) <==> OpenAt(history, i).Some?
  {
    if OpenAt(history, i).Some? {
      OpenWasStarted(history, i);
    }
  }

  lemma OpenIndicesAppend(history: seq<RawEvent>, e: RawEvent)
    ensures OpenIndices(history + [e]) ==
            if e.BlockStart? && e.kind.ToolBlock? then OpenIndices(history) + {e.index}
            else if e.BlockStop? then OpenIndices(history) - {e.index}
            else OpenIndices(history)
  {
    forall i: int
      ensures i in OpenIndices(history + [e]) <==> OpenAt(history + [e], i).Some?
      ensures i in OpenIndices(history) <==> OpenAt(history, i).Some?
    {
      OpenIndicesAre(history + [e], i);
      OpenIndicesAre(history, i);
    }
    forall i: int {
      OpenAtAppend(history, e, i);
    }
    hide OpenAt;
    hide OpenIndices;
  }

  /** Blocks started = tool events yielded + blocks still open + blocks replaced while open. */
  lemma {:induction false} ToolBlocksAreConserved<J>(p: Parser<J>, events: seq<RawEvent>)
    requires Fine(p, events) && MessageStop !in events
    ensures ToolStarts(events) == ToolEvents(Output(p, events)) + |OpenIndices(events)| + Replaced(events)
  {
    if events != [] {
      var n := |events| - 1;
      var rest, e := events[..n], events[n];
      FinePrefix(p, events);
      ToolBlocksAreConserved(p, rest);
      assert events == rest + [e];
      OpenIndicesAppend(rest, e);
      EmittedTool(p, rest, e);
      ToolEventsOfOne(Output(p, rest), Emitted(p, rest, e));
      StepConserves(OpenIndices(rest), e);
      if e.BlockStart? || e.BlockStop? {
        OpenIndicesAre(rest, e.index);
      }
      hide OpenAt;
      hide OpenIndices;
      hide ToolEvents;
      hide Emitted;
      hide Fails;
    }
  }

  lemma EmittedTool<J>(p: Parser<J>, history: seq<RawEvent>, e: RawEvent)
    requires !Fails(p, history, e) && e != MessageStop
    ensures var out := Emitted(p, history, e);
            |out| <= 1 && (|out| == 1 && out[0].ToolUseStart? <==> e.BlockStop? && OpenAt(history, e.index).Some?)
  {
  }

  lemma StepConserves(open: set<int>, e: RawEvent)
    ensures e.BlockStart? ==> |open + {e.index}| == |open| + if e.index in open then 0 else 1
    ensures e.BlockStop? ==> |open - {e.index}| == |open| - if e.index in open then 1 else 0
  {
    if e.BlockStop? && e.index !in open {
      assert open - {e.index} == open;
    }
    if e.BlockStart? && e.index in open {
      assert open + {e.index} == open;
    }
  }

  ghost predicate IsTerminal<J>(e: AgentEvent<J>) {
    e.Done? || e.TruncatedToolUse?
  }

  lemma {:induction false} NothingTerminalBeforeStop<J>(p: Parser<J>, events: seq<RawEvent>)
    requires Fine(p, events) && MessageStop !in events
    ensures forall a :: a in Output(p, events) ==> !IsTerminal(a)
  {
    if events != [] {
      FinePrefix(p, events);
      NothingTerminalBeforeStop(p, events[..|events| - 1]);
    }
  }

  /** At message_stop: one `done`, last, right after an error exactly when some tool block is open. */
  lemma DoneComesLastOnce<J>(p: Parser<J>, events: seq<RawEvent>)
    requires Fine(p, events + [MessageStop]) && MessageStop !in events
    ensures var out := Output(p, events + [MessageStop]);
            var n := |out| - 1;
            && n >= 0 && out[n] == Done(TranslateStopReason(LastReason(events)))
            && (forall k :: 0 <= k < n ==> !out[k].Done?)
            && (forall k :: 0 <= k < n && out[k].TruncatedToolUse? ==> k == n - 1)
            && ((exists i :: OpenAt(events, i).Some?) <==> n > 0 && out[n - 1].TruncatedToolUse?)
            && (n > 0 && out[n - 1].TruncatedToolUse? ==> out[n - 1].unfinished == |OpenIndices(events)|)
  {
    var all := events + [MessageStop];
    assert all[..|events|] == events;
    FinePrefix(p, all);
    NothingTerminalBeforeStop(p, events);
    assert Output(p, all) == Output(p, events) + Emitted(p, events, MessageStop);
    forall i: int
      ensures i in OpenIndices(events) <==> OpenAt(events, i).Some?
    {
      OpenIndicesAre(events, i);
    }
    if i :| i in OpenIndices(events) {
      assert OpenAt(events, i).Some?;
    }
    var before := Output(p, events);
    hide Output;
    assert forall k :: 0 <= k < |before| ==> before[k] in before;
    hide OpenIndices;
    hide OpenAt;
  }
}
