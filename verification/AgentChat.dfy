/** The admin chat reducer and the wire transcript it builds (lib/agent-chat-state.ts). */
module AgentChat {
  import opened Options

  /** A JSON value by its serialised text, or the `{error: ...}` wrapper of a failed tool. */
  datatype Json = Raw(text: string) | ErrorObject(error: string)

  datatype Block = Text(text: string) | ToolUse(id: string, name: string, input: Json)

  datatype ResultBlock = ResultBlock(toolUseId: string, content: Json, isError: bool)

  /** One wire message; tool results travel in the user role. */
  datatype Message =
    | UserText(text: string)
    | Assistant(blocks: seq<Block>)
    | ToolResults(results: seq<ResultBlock>)

  datatype Note =
    | Cancelled | AgentUnavailable | MaxTurnsReached | IterationCap | TokenCap | Declined
    | StreamFailure(message: string)
    | AgentFailure(code: string, message: string)
    | UnmatchedToolResult(name: string)

  datatype DisplayItem =
    | UserBubble(text: string)
    | AssistantText(text: string)
    | ToolUseChip(name: string, id: string, input: Json)
    | ToolResultChip(name: string, output: Json)
    | ToolErrorChip(name: string, error: string)
    | System(note: Note)

  datatype Status = Idle | Streaming | Finished | Failed | Unavailable

  datatype ChatState = ChatState(
    wire: seq<Message>,
    display: seq<DisplayItem>,
    status: Status,
    error: Option<string>,
    pendingBlocks: seq<Block>,
    pendingResults: seq<ResultBlock>,
    expected: map<string, seq<string>>,
    openText: Option<nat>)

  const INITIAL_CHAT_STATE := ChatState([], [], Idle, None, [], [], map[], None)

  datatype StopReason = EndTurn | ToolUseStop | MaxTokens | MaxIterations | MaxTurns | Refusal

  datatype ToolOutcome = Ok(output: Json) | Err(error: string)

  datatype AgentEvent =
    | TextDelta(text: string)
    | ToolUseStart(id: string, name: string, input: Json)
    | ToolResult(name: string, outcome: ToolOutcome)
    | Done(reason: StopReason)
    | ErrorEvent(code: string, message: string)
    | UnknownEvent

  // ----- Transitions the page calls directly -----

  function AppendUserText(s: ChatState, text: string): ChatState {
    s.(wire := s.wire + [UserText(text)], display := s.display + [UserBubble(text)], status := Streaming, error := None,
       pendingBlocks := [], pendingResults := [], expected := map[], openText := None)
  }

  function MarkUnavailable(s: ChatState): ChatState {
    s.(status := Unavailable, display := s.display + [System(AgentUnavailable)])
  }

  function MarkStreamError(s: ChatState, message: string): ChatState {
    s.(status := Failed, error := Some(message), display := s.display + [System(StreamFailure(message))])
  }

  function MarkMaxTurnsExceeded(s: ChatState): ChatState {
    s.(status := Failed, error := Some("max_turns_exceeded"), display := s.display + [System(MaxTurnsReached)])
  }

  function Cancel(s: ChatState): ChatState {
    if s.status != Streaming then s
    else s.(status := Idle, pendingBlocks := [], pendingResults := [], expected := map[], openText := None,
            display := s.display + [System(Cancelled)])
  }

  // ----- Stream events -----

  function ApplyEvent(s: ChatState, e: AgentEvent): ChatState {
    match e
    case TextDelta(text) => if s.status != Streaming then s else ApplyTextDelta(s, text)
    case ToolUseStart(id, name, input) => if s.status != Streaming then s else ApplyToolUseStart(s, id, name, input)
    case ToolResult(name, outcome) => if s.status != Streaming then s else ApplyToolResult(s, name, outcome)
    case Done(reason) => ApplyDone(s, reason)
    case ErrorEvent(code, message) =>
      s.(status := Failed, error := Some(code + ": " + message), display := s.display + [System(AgentFailure(code, message))])
    case UnknownEvent => s
  }

  function FlushPendingToolResults(s: ChatState): ChatState {
    if s.pendingResults == [] then s
    else s.(wire := s.wire + [ToolResults(s.pendingResults)], pendingResults := [], expected := map[])
  }

  function ExtendText(blocks: seq<Block>, text: string): seq<Block> {
    if blocks != [] && blocks[|blocks| - 1].Text?
    then blocks[..|blocks| - 1] + [Text(blocks[|blocks| - 1].text + text)]
    else blocks + [Text(text)]
  }

  function ApplyTextDelta(s: ChatState, text: string): ChatState {
    var base := if s.pendingBlocks == [] then FlushPendingToolResults(s) else s;
    var blocks := ExtendText(base.pendingBlocks, text);
    if base.openText.Some? && base.openText.value < |base.display| && base.display[base.openText.value].AssistantText?
    then
      var at := base.openText.value;
      base.(pendingBlocks := blocks, display := base.display[at := AssistantText(base.display[at].text + text)])
    else
      base.(pendingBlocks := blocks, display := base.display + [AssistantText(text)], openText := Some(|base.display|))
  }

  function ApplyToolUseStart(s: ChatState, id: string, name: string, input: Json): ChatState {
    var base := if s.pendingBlocks == [] then FlushPendingToolResults(s) else s;
    base.(pendingBlocks := base.pendingBlocks + [ToolUse(id, name, input)],
          display := base.display + [ToolUseChip(name, id, input)], openText := None)
  }

  /** The queue of tool-use ids still waiting for a result of tool `name`. */
  function Waiting(expected: map<string, seq<string>>, name: string): seq<string> {
    if name in expected then expected[name] else []
  }

  function ApplyToolResult(s: ChatState, name: string, outcome: ToolOutcome): ChatState {
    var queue := Waiting(s.expected, name);
    if queue == [] then s.(display := s.display + [System(UnmatchedToolResult(name))])
    else
      var item := match outcome case Ok(output) => ToolResultChip(name, output) case Err(error) => ToolErrorChip(name, error);
      var content := match outcome case Ok(output) => output case Err(error) => ErrorObject(error);
      s.(display := s.display + [item],
         pendingResults := s.pendingResults + [ResultBlock(queue[0], content, outcome.Err?)],
         expected := s.expected[name := queue[1..]])
  }

  /** The tool-use ids of a turn, one first-in-first-out queue per tool name. */
  function Harvest(blocks: seq<Block>): map<string, seq<string>> {
    if blocks == [] then map[]
    else
      var rest, last := Harvest(blocks[..|blocks| - 1]), blocks[|blocks| - 1];
      if last.Text? then rest else rest[last.name := Waiting(rest, last.name) + [last.id]]
  }

  function PromoteTerminalTurn(s: ChatState): ChatState {
    var flushed := FlushPendingToolResults(s);
    var next := if flushed.pendingBlocks == [] then flushed
                else flushed.(wire := flushed.wire + [Assistant(flushed.pendingBlocks)], pendingBlocks := []);
    next.(expected := map[], openText := None)
  }

  function ApplyDone(s: ChatState, reason: StopReason): ChatState {
    match reason
    case ToolUseStop =>
      s.(wire := if s.pendingBlocks == [] then s.wire else s.wire + [Assistant(s.pendingBlocks)],
         pendingBlocks := [], expected := Harvest(s.pendingBlocks), openText := None, status := Streaming)
    case MaxTurns => MarkMaxTurnsExceeded(PromoteTerminalTurn(s))
    case EndTurn => PromoteTerminalTurn(s).(status := Finished)
    case MaxIterations => Finish(s, IterationCap)
    case MaxTokens => Finish(s, TokenCap)
    case Refusal => Finish(s, Declined)
  }

  function Finish(s: ChatState, note: Note): ChatState {
    var done := PromoteTerminalTurn(s);
    done.(status := Finished, display := done.display + [System(note)])
  }

  // ----- Runs -----

  datatype Step =
    | Event(event: AgentEvent)
    | SendText(text: string)
    | CancelStream
    | NoteUnavailable
    | NoteStreamError(message: string)
    | NoteMaxTurns

  function Apply(s: ChatState, step: Step): ChatState {
    match step
    case Event(e) => ApplyEvent(s, e)
    case SendText(text) => AppendUserText(s, text)
    case CancelStream => Cancel(s)
    case NoteUnavailable => MarkUnavailable(s)
    case NoteStreamError(message) => MarkStreamError(s, message)
    case NoteMaxTurns => MarkMaxTurnsExceeded(s)
  }

  function Run(s: ChatState, steps: seq<Step>): ChatState
    decreases |steps|
  {
    if steps == [] then s else Run(Apply(s, steps[0]), steps[1..])
  }

  // ----- A well-ordered transcript -----

  /** The ids of the tool uses named `name`, in the order the assistant asked for them. */
  function UseIds(blocks: seq<Block>, name: string): seq<string> {
    if blocks == [] then []
    else
      var rest, last := UseIds(blocks[..|blocks| - 1], name), blocks[|blocks| - 1];
      if last.ToolUse? && last.name == name then rest + [last.id] else rest
  }

  /** The ids answered by the results of tool `name`, when result k came from tool names[k]. */
  function AnsweredIds(results: seq<ResultBlock>, names: seq<string>, name: string): seq<string>
    requires |names| == |results|
  {
    if results == [] then []
    else
      var n := |results| - 1;
      var rest := AnsweredIds(results[..n], names[..n], name);
      if names[n] == name then rest + [results[n].toolUseId] else rest
  }

  /** Per tool name, the results answer the oldest requests of that name, in order, none twice. */
  ghost predicate FifoAnswers(results: seq<ResultBlock>, names: seq<string>, blocks: seq<Block>) {
    |names| == |results| && forall name :: AnsweredIds(results, names, name) <= UseIds(blocks, name)
  }

  ghost predicate Answers(results: seq<ResultBlock>, blocks: seq<Block>) {
    exists names :: FifoAnswers(results, names, blocks)
  }

  ghost predicate Ordered(wire: seq<Message>) {
    forall i :: 0 <= i < |wire| && wire[i].ToolResults? ==>
      i > 0 && wire[i - 1].Assistant? && Answers(wire[i].results, wire[i - 1].blocks)
  }

  /** The results collected so far and the ids still waited for belong to the last wire message. */
  ghost predicate PendingFits(s: ChatState, names: seq<string>) {
    && |names| == |s.pendingResults|
    && if s.wire != [] && s.wire[|s.wire| - 1].Assistant? then
         forall name ::
           AnsweredIds(s.pendingResults, names, name) + Waiting(s.expected, name)
           <= UseIds(s.wire[|s.wire| - 1].blocks, name)
       else s.pendingResults == [] && forall name :: Waiting(s.expected, name) == []
  }

  /**
   * The tool names the result events of a run carried: of the results still pending, and of each wire
   * message (none for a message that is no result message).
   */
  datatype Log = Log(wire: seq<seq<string>>, pending: seq<string>)

  const NO_LOG := Log([], [])

  /** A result event that is matched adds its name; a result message takes the names pending when it is written. */
  function LogStep(s: ChatState, log: Log, step: Step): Log {
    var t := Apply(s, step);
    StepOnlyAppends(s, step);
    var named :=
      if step.Event? && step.event.ToolResult? && |t.pendingResults| > |s.pendingResults|
      then log.pending + [step.event.name] else log.pending;
    Log(log.wire + seq(|t.wire| - |s.wire|, i requires 0 <= i < |t.wire| - |s.wire| =>
                         if t.wire[|s.wire| + i].ToolResults? then named else []),
        if t.pendingResults == [] then [] else named)
  }

  function RunLog(s: ChatState, log: Log, steps: seq<Step>): Log
    decreases |steps|
  {
    if steps == [] then log else RunLog(Apply(s, steps[0]), LogStep(s, log, steps[0]), steps[1..])
  }

  /** Every result message stands right behind the assistant turn it answers, tool by tool in the order asked. */
  ghost predicate NamedOrdered(wire: seq<Message>, names: seq<seq<string>>) {
    && |names| == |wire|
    && forall i :: 0 <= i < |wire| && wire[i].ToolResults? ==>
         i > 0 && wire[i - 1].Assistant? && FifoAnswers(wire[i].results, names[i], wire[i - 1].blocks)
  }

  ghost predicate Named(s: ChatState, log: Log) {
    NamedOrdered(s.wire, log.wire) && PendingFits(s, log.pending)
  }

  ghost predicate Good(s: ChatState) {
    exists log :: Named(s, log)
  }

  /** The one event that can put tool results in the wrong place. */
  predicate PromotesPastResults(s: ChatState, step: Step) {
    step == Event(Done(ToolUseStop)) && s.pendingBlocks != [] && s.pendingResults != []
  }

  // ----- Proofs -----

  lemma {:induction false} HarvestQueuesUses(blocks: seq<Block>, name: string)
    ensures Waiting(Harvest(blocks), name) == UseIds(blocks, name)
  {
    if blocks != [] {
      var rest, last := blocks[..|blocks| - 1], blocks[|blocks| - 1];
      HarvestQueuesUses(rest, name);
      if last.ToolUse? {
        HarvestQueuesUses(rest, last.name);
      }
    }
  }

  lemma GoodIsOrdered(s: ChatState)
    requires Good(s)
    ensures Ordered(s.wire)
  {
  }

  lemma NamedAppend(wire: seq<Message>, names: seq<seq<string>>, m: Message, tag: seq<string>)
    requires NamedOrdered(wire, names)
    requires m.ToolResults? ==>
      wire != [] && wire[|wire| - 1].Assistant? && FifoAnswers(m.results, tag, wire[|wire| - 1].blocks)
    ensures NamedOrdered(wire + [m], names + [tag])
  {
  }

  /** The names a flush leaves behind. */
  function FlushLog(s: ChatState, log: Log): Log {
    if s.pendingResults == [] then log else Log(log.wire + [log.pending], [])
  }

  lemma FlushKeepsNamed(s: ChatState, log: Log)
    requires Named(s, log)
    ensures Named(FlushPendingToolResults(s), FlushLog(s, log))
    ensures FlushPendingToolResults(s).pendingResults == []
  {
    if s.pendingResults != [] {
      var blocks := s.wire[|s.wire| - 1].blocks;
      forall name
        ensures AnsweredIds(s.pendingResults, log.pending, name) <= UseIds(blocks, name)
      {
        assert AnsweredIds(s.pendingResults, log.pending, name) + Waiting(s.expected, name) <= UseIds(blocks, name);
      }
      NamedAppend(s.wire, log.wire, ToolResults(s.pendingResults), log.pending);
    }
  }

  function PromoteLog(s: ChatState, log: Log): Log {
    var flushed := FlushLog(s, log);
    if s.pendingBlocks == [] then flushed else flushed.(wire := flushed.wire + [[]])
  }

  lemma PromoteKeepsNamed(s: ChatState, log: Log)
    requires Named(s, log)
    ensures Named(PromoteTerminalTurn(s), PromoteLog(s, log))
    ensures PromoteTerminalTurn(s).pendingResults == [] && PromoteTerminalTurn(s).pendingBlocks == []
  {
    FlushKeepsNamed(s, log);
    var flushed := FlushPendingToolResults(s);
    if flushed.pendingBlocks != [] {
      NamedAppend(flushed.wire, FlushLog(s, log).wire, Assistant(flushed.pendingBlocks), []);
    }
    hide AnsweredIds;
    hide UseIds;
  }

  lemma ToolResultKeepsNamed(s: ChatState, name: string, outcome: ToolOutcome, log: Log)
    requires Named(s, log)
    ensures Named(ApplyToolResult(s, name, outcome),
                  if Waiting(s.expected, name) == [] then log else log.(pending := log.pending + [name]))
  {
    var t := ApplyToolResult(s, name, outcome);
    var queue := Waiting(s.expected, name);
    if queue != [] {
      var names := log.pending + [name];
      forall n
        ensures AnsweredIds(t.pendingResults, names, n) + Waiting(t.expected, n)
                == AnsweredIds(s.pendingResults, log.pending, n) + Waiting(s.expected, n)
      {
        assert t.pendingResults[..|s.pendingResults|] == s.pendingResults && names[..|log.pending|] == log.pending;
        assert n == name ==> [queue[0]] + queue[1..] == queue;
      }
    }
  }

  lemma ToolUseDoneKeepsNamed(s: ChatState, log: Log)
    requires Named(s, log) && !(s.pendingBlocks != [] && s.pendingResults != [])
    ensures Named(ApplyDone(s, ToolUseStop), if s.pendingBlocks == [] then log else log.(wire := log.wire + [[]]))
  {
    var t := ApplyDone(s, ToolUseStop);
    forall name
      ensures Waiting(t.expected, name) == UseIds(s.pendingBlocks, name)
    {
      HarvestQueuesUses(s.pendingBlocks, name);
    }
    if s.pendingBlocks == [] {
      forall name | s.wire != [] && s.wire[|s.wire| - 1].Assistant?
        ensures AnsweredIds(s.pendingResults, log.pending, name) <= UseIds(s.wire[|s.wire| - 1].blocks, name)
      {
        assert AnsweredIds(s.pendingResults, log.pending, name) + Waiting(s.expected, name)
               <= UseIds(s.wire[|s.wire| - 1].blocks, name);
      }
    } else {
      NamedAppend(s.wire, log.wire, Assistant(s.pendingBlocks), []);
    }
  }

  lemma SameTranscriptKeepsNamed(s: ChatState, t: ChatState, log: Log)
    requires Named(s, log)
    requires t.wire == s.wire && t.pendingResults == s.pendingResults && t.expected == s.expected
    ensures Named(t, log)
  {
  }

  lemma NothingPendingIsNamed(s: ChatState, log: Log)
    requires NamedOrdered(s.wire, log.wire) && s.pendingResults == [] && s.expected == map[]
    ensures Named(s, log.(pending := []))
  {
  }

  /** What the log of a step is, by what the step wrote. */
  lemma LogIs(s: ChatState, log: Log, step: Step, wrote: seq<Message>, tags: seq<seq<string>>)
    requires Apply(s, step).wire == s.wire + wrote && |tags| == |wrote|
    requires !(step.Event? && step.event.ToolResult?)
    requires forall i :: 0 <= i < |wrote| ==> tags[i] == if wrote[i].ToolResults? then log.pending else []
    ensures LogStep(s, log, step) ==
      Log(log.wire + tags, if Apply(s, step).pendingResults == [] then [] else log.pending)
  {
    hide Apply;
  }

  lemma FreshTurnKeepsNames(s: ChatState, log: Log, step: Step)
    requires Named(s, log) && step.Event? && (step.event.TextDelta? || step.event.ToolUseStart?)
    ensures Named(Apply(s, step), LogStep(s, log, step))
  {
    hide Named;
    FlushKeepsNamed(s, log);
    var t := Apply(s, step);
    hide ExtendText;
    if s.status == Streaming && s.pendingBlocks == [] && s.pendingResults != [] {
      LogIs(s, log, step, [ToolResults(s.pendingResults)], [log.pending]);
      SameTranscriptKeepsNamed(FlushPendingToolResults(s), t, FlushLog(s, log));
    } else {
      assert t.pendingResults == s.pendingResults;
      LogIs(s, log, step, [], []);
      SameTranscriptKeepsNamed(s, t, log);
      assert log.wire + [] == log.wire;
      if s.pendingResults == [] {
        EmptyLog(s, log);
      }
    }
  }

  lemma EmptyLog(s: ChatState, log: Log)
    requires Named(s, log) && s.pendingResults == []
    ensures log == log.(pending := [])
  {
  }

  lemma ToolUseDoneKeepsNames(s: ChatState, log: Log)
    requires Named(s, log) && !PromotesPastResults(s, Event(Done(ToolUseStop)))
    ensures Named(ApplyDone(s, ToolUseStop), LogStep(s, log, Event(Done(ToolUseStop))))
  {
    ToolUseDoneKeepsNamed(s, log);
    hide Named;
    hide Harvest;
    if s.pendingBlocks == [] {
      LogIs(s, log, Event(Done(ToolUseStop)), [], []);
    } else {
      LogIs(s, log, Event(Done(ToolUseStop)), [Assistant(s.pendingBlocks)], [[]]);
    }
  }

  /** What a terminal `done` writes: pending results first, then the turn in progress. */
  function LastWords(s: ChatState): seq<Message> {
    (if s.pendingResults == [] then [] else [ToolResults(s.pendingResults)])
    + if s.pendingBlocks == [] then [] else [Assistant(s.pendingBlocks)]
  }

  lemma PromoteWrites(s: ChatState, log: Log)
    ensures PromoteTerminalTurn(s).wire == s.wire + LastWords(s)
    ensures PromoteTerminalTurn(s).pendingResults == []
    ensures |PromoteLog(s, log).wire| == |log.wire| + |LastWords(s)| && log.wire <= PromoteLog(s, log).wire
    ensures forall i :: 0 <= i < |LastWords(s)| ==>
      PromoteLog(s, log).wire[|log.wire| + i] == if LastWords(s)[i].ToolResults? then log.pending else []
  {
  }

  lemma DoneWritesAsPromoted(s: ChatState, reason: StopReason)
    requires reason != ToolUseStop
    ensures var t, u := ApplyDone(s, reason), PromoteTerminalTurn(s);
      t.wire == u.wire && t.pendingResults == u.pendingResults && t.expected == u.expected
  {
    hide PromoteTerminalTurn;
  }

  lemma TerminalDoneKeepsNames(s: ChatState, log: Log, reason: StopReason)
    requires Named(s, log) && reason != ToolUseStop
    ensures Named(ApplyDone(s, reason), LogStep(s, log, Event(Done(reason))))
  {
    hide Named;
    hide PromoteTerminalTurn;
    hide PromoteLog;
    hide LastWords;
    PromoteKeepsNamed(s, log);
    PromoteWrites(s, log);
    DoneWritesAsPromoted(s, reason);
    hide ApplyDone;
    SameTranscriptKeepsNamed(PromoteTerminalTurn(s), ApplyDone(s, reason), PromoteLog(s, log));
    var tags := PromoteLog(s, log).wire[|log.wire|..];
    assert PromoteLog(s, log).wire == log.wire + tags;
    LogIs(s, log, Event(Done(reason)), LastWords(s), tags);
    hide LogStep;
    PromotePendingIsEmpty(s, log);
  }

  lemma PromotePendingIsEmpty(s: ChatState, log: Log)
    requires Named(s, log)
    ensures PromoteLog(s, log).pending == []
  {
  }

  lemma StepKeepsNames(s: ChatState, log: Log, step: Step)
    requires Named(s, log) && !PromotesPastResults(s, step)
    ensures Named(Apply(s, step), LogStep(s, log, step))
  {
    var t := Apply(s, step);
    match step
    case SendText(text) =>
      NamedAppend(s.wire, log.wire, UserText(text), []);
      LogIs(s, log, step, [UserText(text)], [[]]);
      NothingPendingIsNamed(t, Log(log.wire + [[]], []));
    case CancelStream =>
      LogIs(s, log, step, [], []);
      if s.status == Streaming {
        NothingPendingIsNamed(t, log);
      }
    case NoteUnavailable => SameNames(s, log, step);
    case NoteStreamError(_) => SameNames(s, log, step);
    case NoteMaxTurns => SameNames(s, log, step);
    case Event(e) =>
      match e {
        case TextDelta(_) => FreshTurnKeepsNames(s, log, step);
        case ToolUseStart(_, _, _) => FreshTurnKeepsNames(s, log, step);
        case ToolResult(name, outcome) =>
          ToolResultKeepsNamed(s, name, outcome, log);
          hide Named;
        case Done(reason) =>
          if reason == ToolUseStop {
            ToolUseDoneKeepsNames(s, log);
          } else {
            TerminalDoneKeepsNames(s, log, reason);
          }
        case ErrorEvent(_, _) => SameNames(s, log, step);
        case UnknownEvent => SameNames(s, log, step);
      }
  }

  lemma SameNames(s: ChatState, log: Log, step: Step)
    requires Named(s, log) && !(step.Event? && step.event.ToolResult?)
    requires var t := Apply(s, step);
      t.wire == s.wire && t.pendingResults == s.pendingResults && t.expected == s.expected
    ensures Named(Apply(s, step), LogStep(s, log, step))
  {
    LogIs(s, log, step, [], []);
    SameTranscriptKeepsNamed(s, Apply(s, step), log);
    hide Apply;
  }

  lemma StepKeepsGood(s: ChatState, step: Step)
    requires Good(s) && !PromotesPastResults(s, step)
    ensures Good(Apply(s, step))
  {
    var log :| Named(s, log);
    StepKeepsNames(s, log, step);
    hide Named;
  }

  /** No step of any kind rewrites what has been put on the wire. */
  lemma StepOnlyAppends(s: ChatState, step: Step)
    ensures s.wire <= Apply(s, step).wire
  {
    hide Harvest;
    hide ExtendText;
  }

  /** Every `done tool_use` of the run finds at most one of the two buffers filled. */
  ghost predicate NeverPromotesPastResults(s: ChatState, steps: seq<Step>)
    decreases |steps|
  {
    steps == [] || (!PromotesPastResults(s, steps[0]) && NeverPromotesPastResults(Apply(s, steps[0]), steps[1..]))
  }

  /**
   * On all such runs the transcript only grows, and result k of every result message answers, among the
   * uses of the tool its own event named, the next one in the order asked.
   */
  lemma {:induction false} RunStaysOrdered(s: ChatState, log: Log, steps: seq<Step>)
    requires Named(s, log) && NeverPromotesPastResults(s, steps)
    ensures Named(Run(s, steps), RunLog(s, log, steps))
    ensures Ordered(Run(s, steps).wire) && s.wire <= Run(s, steps).wire
    decreases |steps|
  {
    if steps != [] {
      StepKeepsNames(s, log, steps[0]);
      StepOnlyAppends(s, steps[0]);
      RunStaysOrdered(Apply(s, steps[0]), LogStep(s, log, steps[0]), steps[1..]);
    } else {
      assert Good(s);
      GoodIsOrdered(s);
    }
    hide LogStep;
  }

  /** The stream rule: tool results arrive only while no assistant block is pending. */
  ghost predicate ObeysStreamRule(s: ChatState, steps: seq<Step>)
    decreases |steps|
  {
    steps == []
    || ((steps[0].Event? && steps[0].event.ToolResult? ==> s.pendingBlocks == [])
        && ObeysStreamRule(Apply(s, steps[0]), steps[1..]))
  }

  lemma {:induction false} StreamRuleSuffices(s: ChatState, steps: seq<Step>)
    requires s.pendingBlocks != [] ==> s.pendingResults == []
    requires ObeysStreamRule(s, steps)
    ensures NeverPromotesPastResults(s, steps)
    decreases |steps|
  {
    if steps != [] {
      StreamRuleSuffices(Apply(s, steps[0]), steps[1..]);
    }
  }

  /** From a fresh conversation, the documented stream rule keeps every transcript well ordered. */
  lemma ConversationStaysOrdered(steps: seq<Step>)
    requires ObeysStreamRule(INITIAL_CHAT_STATE, steps)
    ensures Ordered(Run(INITIAL_CHAT_STATE, steps).wire)
    ensures NamedOrdered(Run(INITIAL_CHAT_STATE, steps).wire, RunLog(INITIAL_CHAT_STATE, NO_LOG, steps).wire)
  {
    NothingPendingIsNamed(INITIAL_CHAT_STATE, NO_LOG);
    StreamRuleSuffices(INITIAL_CHAT_STATE, steps);
    RunStaysOrdered(INITIAL_CHAT_STATE, NO_LOG, steps);
  }

  // ----- The guard is exact -----

  /** The pending results answer none of the tool uses that are about to be promoted. */
  ghost predicate ResultsAreOlder(s: ChatState) {
    forall r, name :: r in s.pendingResults ==> r.toolUseId !in UseIds(s.pendingBlocks, name)
  }

  lemma FirstAnswerIsAUse(results: seq<ResultBlock>, names: seq<string>, name: string)
    requires results != [] && |names| == |results| && names[0] == name
    ensures results[0].toolUseId in AnsweredIds(results, names, name)
  {
    if |results| > 1 {
      FirstAnswerIsAUse(results[..|results| - 1], names[..|results| - 1], name);
    }
  }

  /** `done tool_use` followed by the next turn is safe exactly when not both buffers are filled. */
  lemma ToolUseDoneIsSafeIff(s: ChatState, text: string)
    requires Good(s) && ResultsAreOlder(s)
    ensures var t := Apply(Apply(s, Event(Done(ToolUseStop))), Event(TextDelta(text)));
            Ordered(t.wire) <==> !PromotesPastResults(s, Event(Done(ToolUseStop)))
  {
    var mid := Apply(s, Event(Done(ToolUseStop)));
    var t := Apply(mid, Event(TextDelta(text)));
    if PromotesPastResults(s, Event(Done(ToolUseStop))) {
      var i := |t.wire| - 1;
      assert t.wire[i] == ToolResults(s.pendingResults) && t.wire[i - 1] == Assistant(s.pendingBlocks);
      forall names | |names| == |s.pendingResults|
        ensures !FifoAnswers(s.pendingResults, names, s.pendingBlocks)
      {
        FirstAnswerIsAUse(s.pendingResults, names, names[0]);
        var id := s.pendingResults[0].toolUseId;
        assert s.pendingResults[0] in s.pendingResults && id !in UseIds(s.pendingBlocks, names[0]);
        assert !(AnsweredIds(s.pendingResults, names, names[0]) <= UseIds(s.pendingBlocks, names[0]));
      }
      assert !Answers(s.pendingResults, s.pendingBlocks);
    } else {
      StepKeepsGood(s, Event(Done(ToolUseStop)));
      StepKeepsGood(mid, Event(TextDelta(text)));
      GoodIsOrdered(t);
    }
  }

  /** A transcript that a late result spoils: it lands behind the next assistant turn. */
  lemma LateResultBreaksOrder()
    ensures var asked := AppendUserText(INITIAL_CHAT_STATE, "hi");
            var promoted := ApplyDone(ApplyToolUseStart(asked, "t1", "search", Raw("{}")), ToolUseStop);
            var late := ApplyToolResult(ApplyTextDelta(promoted, "so"), "search", Ok(Raw("[]")));
            !Ordered(ApplyTextDelta(ApplyDone(late, ToolUseStop), "on").wire)
  {
    var asked := AppendUserText(INITIAL_CHAT_STATE, "hi");
    var use := [ToolUse("t1", "search", Raw("{}"))];
    var promoted := ApplyDone(ApplyToolUseStart(asked, "t1", "search", Raw("{}")), ToolUseStop);
    assert use[..0] == [];
    assert promoted.wire == [UserText("hi"), Assistant(use)] && Waiting(promoted.expected, "search") == ["t1"];
    var late := ApplyToolResult(ApplyTextDelta(promoted, "so"), "search", Ok(Raw("[]")));
    var results := [ResultBlock("t1", Raw("[]"), false)];
    assert late.wire == promoted.wire && late.pendingBlocks == [Text("so")] && late.pendingResults == results;
    hide Harvest;
    var end := ApplyTextDelta(ApplyDone(late, ToolUseStop), "on");
    assert end.wire == [UserText("hi"), Assistant(use), Assistant([Text("so")]), ToolResults(results)];
    forall names | |names| == 1
      ensures !FifoAnswers(results, names, [Text("so")])
    {
      FirstAnswerIsAUse(results, names, names[0]);
      assert [Text("so")][..0] == [] && UseIds([Text("so")], names[0]) == [];
      assert !(AnsweredIds(results, names, names[0]) <= UseIds([Text("so")], names[0]));
    }
    assert end.wire[3].ToolResults? && !Answers(end.wire[3].results, end.wire[2].blocks);
  }

  /** A matched result takes the id of the oldest use of its own tool that has no answer yet. */
  lemma ResultAnswersOldestOfItsTool(s: ChatState, name: string, outcome: ToolOutcome) returns (names: seq<string>)
    requires Good(s) && Waiting(s.expected, name) != []
    ensures PendingFits(s, names) && s.wire != [] && s.wire[|s.wire| - 1].Assistant?
    ensures var t := ApplyToolResult(s, name, outcome);
            var uses := UseIds(s.wire[|s.wire| - 1].blocks, name);
            var answered := |AnsweredIds(s.pendingResults, names, name)|;
            && |t.pendingResults| == |s.pendingResults| + 1
            && answered < |uses| && t.pendingResults[|s.pendingResults|].toolUseId == uses[answered]
  {
    var log :| Named(s, log);
    names := log.pending;
    assert Waiting(s.expected, name) != [];
    assert AnsweredIds(s.pendingResults, names, name) + Waiting(s.expected, name)
           <= UseIds(s.wire[|s.wire| - 1].blocks, name);
  }

  // ----- What the user sees -----

  /** All assistant text on screen, in order. */
  function ShownText(display: seq<DisplayItem>): string {
    if display == [] then ""
    else
      var rest, last := ShownText(display[..|display| - 1]), display[|display| - 1];
      if last.AssistantText? then rest + last.text else rest
  }

  /** The open bubble, if any, is the last assistant bubble on screen. */
  ghost predicate OpenIsLast(s: ChatState) {
    s.openText.Some? ==>
      && s.openText.value < |s.display| && s.display[s.openText.value].AssistantText?
      && forall i :: s.openText.value < i < |s.display| ==> !s.display[i].AssistantText?
  }

  lemma {:induction false} ExtendLastBubble(display: seq<DisplayItem>, at: nat, text: string)
    requires at < |display| && display[at].AssistantText?
    requires forall i :: at < i < |display| ==> !display[i].AssistantText?
    ensures ShownText(display[at := AssistantText(display[at].text + text)]) == ShownText(display) + text
  {
    var n := |display| - 1;
    var d := display[at := AssistantText(display[at].text + text)];
    if at < n {
      ExtendLastBubble(display[..n], at, text);
      assert d[..n] == display[..n][at := AssistantText(display[..n][at].text + text)];
    } else {
      assert d[..n] == display[..n];
    }
  }

  lemma ShownTextAppend(display: seq<DisplayItem>, item: DisplayItem)
    ensures ShownText(display + [item]) == ShownText(display) + if item.AssistantText? then item.text else ""
  {
    assert (display + [item])[..|display|] == display;
  }

  lemma TextDeltaShowsTheText(s: ChatState, text: string)
    requires OpenIsLast(s)
    ensures OpenIsLast(ApplyTextDelta(s, text))
    ensures ShownText(ApplyTextDelta(s, text).display) == ShownText(s.display) + text
  {
    ShownTextAppend(s.display, AssistantText(text));
    if s.openText.Some? {
      ExtendLastBubble(s.display, s.openText.value, text);
    }
    hide ShownText;
  }

  predicate StreamsText(s: ChatState, step: Step) {
    step.Event? && step.event.TextDelta? && s.status == Streaming
  }

  /** At most one new item, no assistant text, and at most the bubble is closed. */
  ghost predicate AddsNoText(s: ChatState, t: ChatState) {
    && (t.display == s.display || exists item: DisplayItem :: !item.AssistantText? && t.display == s.display + [item])
    && (t.openText == s.openText || t.openText.None?)
  }

  lemma DoneShowsNoText(s: ChatState, reason: StopReason)
    ensures AddsNoText(s, ApplyDone(s, reason))
  {
    hide Harvest;
  }

  lemma OtherStepsShowNoText(s: ChatState, step: Step)
    requires !StreamsText(s, step)
    ensures AddsNoText(s, Apply(s, step))
  {
    if step.Event? && step.event.Done? {
      DoneShowsNoText(s, step.event.reason);
    } else {
      hide ApplyDone;
      hide ApplyTextDelta;
    }
  }

  /** The screen shows exactly the streamed text, in stream order, tool chips in between or not. */
  lemma StepShowsTheText(s: ChatState, step: Step)
    requires OpenIsLast(s)
    ensures var t := Apply(s, step);
            OpenIsLast(t)
            && ShownText(t.display) == ShownText(s.display) + if StreamsText(s, step) then step.event.text else ""
  {
    if StreamsText(s, step) {
      TextDeltaShowsTheText(s, step.event.text);
    } else {
      OtherStepsShowNoText(s, step);
      var t := Apply(s, step);
      hide Apply;
      if t.display != s.display {
        var item: DisplayItem :| !item.AssistantText? && t.display == s.display + [item];
        ShownTextAppend(s.display, item);
      }
    }
  }

  // ----- Each id is answered at most once -----

  ghost predicate DistinctUses(blocks: seq<Block>) {
    forall i, j :: 0 <= i < j < |blocks| && blocks[i].ToolUse? && blocks[j].ToolUse? ==> blocks[i].id != blocks[j].id
  }

  lemma {:induction false} UseIdsArePositions(blocks: seq<Block>, name: string, k: nat) returns (at: nat)
    requires k < |UseIds(blocks, name)|
    ensures at < |blocks| && blocks[at].ToolUse? && blocks[at].name == name && blocks[at].id == UseIds(blocks, name)[k]
    ensures forall l :: k < l < |UseIds(blocks, name)| ==>
      exists later :: at < later < |blocks| && blocks[later].ToolUse? && blocks[later].id == UseIds(blocks, name)[l]
  {
    var n := |blocks| - 1;
    var init := blocks[..n];
    var rest := UseIds(init, name);
    if k < |rest| {
      at := UseIdsArePositions(init, name, k);
      forall l | k < l < |UseIds(blocks, name)|
        ensures exists later :: at < later < |blocks| && blocks[later].ToolUse? && blocks[later].id == UseIds(blocks, name)[l]
      {
        if l < |rest| {
          var later :| at < later < |init| && init[later].ToolUse? && init[later].id == UseIds(init, name)[l];
          assert blocks[later] == init[later];
        } else {
          assert blocks[n].ToolUse?;
        }
      }
    } else {
      at := n;
    }
  }

  /** Result `k` holds the id of a use named names[k], further on in its queue than all before. */
  lemma {:induction false} AnswerPosition(results: seq<ResultBlock>, names: seq<string>, k: nat) returns (at: nat)
    requires |names| == |results| && k < |results|
    ensures at < |AnsweredIds(results, names, names[k])|
    ensures AnsweredIds(results, names, names[k])[at] == results[k].toolUseId
    ensures at == |AnsweredIds(results[..k], names[..k], names[k])|
    decreases |results|
  {
    var n := |results| - 1;
    if k == n {
      at := |AnsweredIds(results[..n], names[..n], names[k])|;
    } else {
      at := AnswerPosition(results[..n], names[..n], k);
      assert results[..n][..k] == results[..k] && names[..n][..k] == names[..k];
    }
  }

  lemma {:induction false} AnsweredGrows(results: seq<ResultBlock>, names: seq<string>, i: nat, j: nat, name: string)
    requires |names| == |results| && i < j <= |results| && names[i] == name
    ensures |AnsweredIds(results[..i], names[..i], name)| < |AnsweredIds(results[..j], names[..j], name)|
    decreases j
  {
    assert results[..j][..j - 1] == results[..j - 1] && names[..j][..j - 1] == names[..j - 1];
    if i < j - 1 {
      AnsweredGrows(results, names, i, j - 1, name);
    }
  }

  /** In a well-ordered transcript no tool use is answered twice. */
  lemma AnsweredAtMostOnce(results: seq<ResultBlock>, blocks: seq<Block>, i: nat, j: nat)
    requires Answers(results, blocks) && DistinctUses(blocks)
    requires i < j < |results|
    ensures results[i].toolUseId != results[j].toolUseId
  {
    var names :| FifoAnswers(results, names, blocks);
    var p := AnswerPosition(results, names, i);
    var q := AnswerPosition(results, names, j);
    var a := UseIdsArePositions(blocks, names[i], p);
    if names[i] == names[j] {
      AnsweredGrows(results, names, i, j, names[i]);
      var later :| a < later < |blocks| && blocks[later].ToolUse? && blocks[later].id == UseIds(blocks, names[i])[q];
    } else {
      var b := UseIdsArePositions(blocks, names[j], q);
    }
  }

  // ----- Fresh ids -----

  ghost predicate IsUse(blocks: seq<Block>, id: string) {
    exists i :: 0 <= i < |blocks| && blocks[i].ToolUse? && blocks[i].id == id
  }

  /** No tool-use event of the run carries an id in `seen` or one that an earlier event carried. */
  ghost predicate FreshIds(steps: seq<Step>, seen: set<string>)
    decreases |steps|
  {
    steps == []
    || if steps[0].Event? && steps[0].event.ToolUseStart?
       then steps[0].event.id !in seen && FreshIds(steps[1..], seen + {steps[0].event.id})
       else FreshIds(steps[1..], seen)
  }

  function SeenAfter(step: Step, seen: set<string>): set<string> {
    if step.Event? && step.event.ToolUseStart? then seen + {step.event.id} else seen
  }

  /** Everything in hand carries a seen id, and the turn in progress shares none with what is being answered. */
  ghost predicate Aged(s: ChatState, seen: set<string>) {
    && DistinctUses(s.pendingBlocks)
    && (forall id :: IsUse(s.pendingBlocks, id) ==> id in seen)
    && (forall r :: r in s.pendingResults ==> r.toolUseId in seen && !IsUse(s.pendingBlocks, r.toolUseId))
    && (forall name, id :: id in Waiting(s.expected, name) ==> id in seen && !IsUse(s.pendingBlocks, id))
    && (forall i :: 0 <= i < |s.wire| && s.wire[i].Assistant? ==> DistinctUses(s.wire[i].blocks))
  }

  lemma UseIdIsUse(blocks: seq<Block>, name: string, id: string)
    requires id in UseIds(blocks, name)
    ensures IsUse(blocks, id)
  {
    var k :| 0 <= k < |UseIds(blocks, name)| && UseIds(blocks, name)[k] == id;
    var at := UseIdsArePositions(blocks, name, k);
  }

  lemma FlushKeepsAged(s: ChatState, seen: set<string>)
    requires Aged(s, seen)
    ensures Aged(FlushPendingToolResults(s), seen)
  {
  }

  lemma SameHandKeepsAged(s: ChatState, t: ChatState, seen: set<string>)
    requires Aged(s, seen) && t.wire == s.wire && t.pendingBlocks == s.pendingBlocks
    requires t.pendingResults == s.pendingResults && t.expected == s.expected
    ensures Aged(t, seen)
  {
  }

  /** Text changes no tool use. */
  lemma ExtendTextUses(blocks: seq<Block>, text: string)
    requires DistinctUses(blocks)
    ensures DistinctUses(ExtendText(blocks, text))
    ensures forall id :: IsUse(ExtendText(blocks, text), id) ==> IsUse(blocks, id)
  {
    var out := ExtendText(blocks, text);
    assert forall i :: 0 <= i < |out| && out[i].ToolUse? ==> i < |blocks| && blocks[i] == out[i];
  }

  lemma TextKeepsAged(s: ChatState, text: string, seen: set<string>)
    requires Aged(s, seen)
    ensures Aged(ApplyTextDelta(s, text), seen)
  {
    var base := if s.pendingBlocks == [] then FlushPendingToolResults(s) else s;
    FlushKeepsAged(s, seen);
    ExtendTextUses(base.pendingBlocks, text);
    BlocksKeepAged(base, ApplyTextDelta(s, text), seen);
  }

  lemma BlocksKeepAged(s: ChatState, t: ChatState, seen: set<string>)
    requires Aged(s, seen) && t.wire == s.wire && t.pendingResults == s.pendingResults && t.expected == s.expected
    requires DistinctUses(t.pendingBlocks) && forall id :: IsUse(t.pendingBlocks, id) ==> IsUse(s.pendingBlocks, id)
    ensures Aged(t, seen)
  {
    hide IsUse;
  }

  lemma UseKeepsAged(s: ChatState, id: string, name: string, input: Json, seen: set<string>)
    requires Aged(s, seen) && id !in seen
    ensures Aged(ApplyToolUseStart(s, id, name, input), seen + {id})
  {
    var base := if s.pendingBlocks == [] then FlushPendingToolResults(s) else s;
    FlushKeepsAged(s, seen);
    var t := ApplyToolUseStart(s, id, name, input);
    var blocks := base.pendingBlocks;
    forall other
      ensures IsUse(t.pendingBlocks, other) <==> IsUse(blocks, other) || other == id
    {
      if IsUse(blocks, other) {
        var i :| 0 <= i < |blocks| && blocks[i].ToolUse? && blocks[i].id == other;
        assert t.pendingBlocks[i] == blocks[i];
      }
      assert t.pendingBlocks[|blocks|] == ToolUse(id, name, input);
    }
    forall i, j | 0 <= i < j < |t.pendingBlocks| && t.pendingBlocks[i].ToolUse? && t.pendingBlocks[j].ToolUse?
      ensures t.pendingBlocks[i].id != t.pendingBlocks[j].id
    {
      assert IsUse(blocks, blocks[i].id);
    }
    hide IsUse;
    hide ApplyToolUseStart;
  }

  lemma ResultKeepsAged(s: ChatState, name: string, outcome: ToolOutcome, seen: set<string>)
    requires Aged(s, seen)
    ensures Aged(ApplyToolResult(s, name, outcome), seen)
  {
    var t := ApplyToolResult(s, name, outcome);
    forall n, id | id in Waiting(t.expected, n)
      ensures id in Waiting(s.expected, n)
    {
    }
    hide IsUse;
  }

  lemma PromoteKeepsAged(s: ChatState, seen: set<string>)
    requires Aged(s, seen)
    ensures Aged(PromoteTerminalTurn(s), seen)
  {
    FlushKeepsAged(s, seen);
  }

  lemma ToolUseDoneKeepsAged(s: ChatState, seen: set<string>)
    requires Aged(s, seen)
    ensures Aged(ApplyDone(s, ToolUseStop), seen)
  {
    var t := ApplyDone(s, ToolUseStop);
    forall name, id | id in Waiting(t.expected, name)
      ensures id in seen
    {
      HarvestQueuesUses(s.pendingBlocks, name);
      UseIdIsUse(s.pendingBlocks, name, id);
    }
    hide Harvest;
  }

  lemma StepKeepsAged(s: ChatState, step: Step, seen: set<string>)
    requires Aged(s, seen)
    requires step.Event? && step.event.ToolUseStart? ==> step.event.id !in seen
    ensures Aged(Apply(s, step), SeenAfter(step, seen))
  {
    match step
    case SendText(_) =>
    case CancelStream =>
    case NoteUnavailable => SameHandKeepsAged(s, Apply(s, step), seen);
    case NoteStreamError(_) => SameHandKeepsAged(s, Apply(s, step), seen);
    case NoteMaxTurns => SameHandKeepsAged(s, Apply(s, step), seen);
    case Event(e) =>
      hide IsUse;
      match e {
        case TextDelta(text) => TextKeepsAged(s, text, seen);
        case ToolUseStart(id, name, input) => UseKeepsAged(s, id, name, input, seen);
        case ToolResult(name, outcome) => ResultKeepsAged(s, name, outcome, seen);
        case Done(reason) =>
          if reason == ToolUseStop {
            ToolUseDoneKeepsAged(s, seen);
          } else {
            PromoteKeepsAged(s, seen);
            hide Aged;
            hide PromoteTerminalTurn;
            DoneHand(s, reason);
            SameHandKeepsAged(PromoteTerminalTurn(s), ApplyDone(s, reason), seen);
          }
        case ErrorEvent(_, _) => SameHandKeepsAged(s, Apply(s, step), seen);
        case UnknownEvent =>
      }
  }

  lemma DoneHand(s: ChatState, reason: StopReason)
    requires reason != ToolUseStop
    ensures var t, u := ApplyDone(s, reason), PromoteTerminalTurn(s);
      && t.wire == u.wire && t.pendingBlocks == u.pendingBlocks
      && t.pendingResults == u.pendingResults && t.expected == u.expected
  {
    hide PromoteTerminalTurn;
  }

  /** No two assistant turns, on the wire or in progress, share a tool-use id, and all on the wire are seen. */
  ghost predicate TurnsApart(wire: seq<Message>, pending: seq<Block>, seen: set<string>) {
    && (forall i, id :: 0 <= i < |wire| && wire[i].Assistant? && IsUse(wire[i].blocks, id)
          ==> id in seen && !IsUse(pending, id))
    && (forall i, j, id :: 0 <= i < j < |wire| && wire[i].Assistant? && wire[j].Assistant? && IsUse(wire[i].blocks, id)
          ==> !IsUse(wire[j].blocks, id))
  }

  lemma NothingInHand()
    ensures forall id :: !IsUse([], id)
  {
  }

  lemma OtherMessageKeepsApart(wire: seq<Message>, pending: seq<Block>, m: Message, seen: set<string>)
    requires TurnsApart(wire, pending, seen) && !m.Assistant?
    ensures TurnsApart(wire + [m], pending, seen)
  {
    hide IsUse;
  }

  lemma PromotedTurnKeepsApart(wire: seq<Message>, pending: seq<Block>, seen: set<string>)
    requires TurnsApart(wire, pending, seen) && forall id :: IsUse(pending, id) ==> id in seen
    ensures TurnsApart(wire + [Assistant(pending)], [], seen)
  {
    NothingInHand();
    hide IsUse;
  }

  /** The turn in progress loses uses, or gains one that was never seen. */
  lemma NewHandKeepsApart(wire: seq<Message>, hand: seq<Block>, next: seq<Block>, seen: set<string>, more: set<string>)
    requires TurnsApart(wire, hand, seen) && seen !! more
    requires forall id :: IsUse(next, id) ==> IsUse(hand, id) || id in more
    ensures TurnsApart(wire, next, seen + more)
  {
    hide IsUse;
  }

  lemma FlushKeepsApart(s: ChatState, seen: set<string>)
    requires TurnsApart(s.wire, s.pendingBlocks, seen)
    ensures var t := FlushPendingToolResults(s); TurnsApart(t.wire, t.pendingBlocks, seen)
  {
    hide TurnsApart;
    if s.pendingResults != [] {
      OtherMessageKeepsApart(s.wire, s.pendingBlocks, ToolResults(s.pendingResults), seen);
    }
  }

  lemma DeltaKeepsApart(s: ChatState, e: AgentEvent, seen: set<string>)
    requires Aged(s, seen) && TurnsApart(s.wire, s.pendingBlocks, seen) && s.status == Streaming
    requires e.TextDelta? || (e.ToolUseStart? && e.id !in seen)
    ensures var t := ApplyEvent(s, e); TurnsApart(t.wire, t.pendingBlocks, SeenAfter(Event(e), seen))
  {
    hide TurnsApart;
    hide ExtendText;
    FlushKeepsApart(s, seen);
    var base := if s.pendingBlocks == [] then FlushPendingToolResults(s) else s;
    var t := ApplyEvent(s, e);
    if e.TextDelta? {
      ExtendTextUses(base.pendingBlocks, e.text);
      hide IsUse;
      NewHandKeepsApart(base.wire, base.pendingBlocks, t.pendingBlocks, seen, {});
      assert seen + {} == seen;
    } else {
      AddedUse(base.pendingBlocks, e.id, e.name, e.input);
      hide IsUse;
      NewHandKeepsApart(base.wire, base.pendingBlocks, t.pendingBlocks, seen, {e.id});
    }
  }

  lemma AddedUse(blocks: seq<Block>, id: string, name: string, input: Json)
    ensures forall other :: IsUse(blocks + [ToolUse(id, name, input)], other) ==> IsUse(blocks, other) || other == id
  {
  }

  lemma DoneKeepsApart(s: ChatState, reason: StopReason, seen: set<string>)
    requires Aged(s, seen) && TurnsApart(s.wire, s.pendingBlocks, seen)
    ensures var t := ApplyDone(s, reason); TurnsApart(t.wire, t.pendingBlocks, seen)
  {
    hide IsUse;
    hide TurnsApart;
    hide Harvest;
    FlushKeepsApart(s, seen);
    PromotedTurnKeepsApart(s.wire, s.pendingBlocks, seen);
    PromotedTurnKeepsApart(FlushPendingToolResults(s).wire, s.pendingBlocks, seen);
  }

  lemma StepKeepsApart(s: ChatState, step: Step, seen: set<string>)
    requires Aged(s, seen) && TurnsApart(s.wire, s.pendingBlocks, seen)
    requires step.Event? && step.event.ToolUseStart? ==> step.event.id !in seen
    ensures var t := Apply(s, step); TurnsApart(t.wire, t.pendingBlocks, SeenAfter(step, seen))
  {
    NothingInHand();
    hide IsUse;
    hide Aged;
    hide ApplyDone;
    match step
    case SendText(text) =>
      OtherMessageKeepsApart(s.wire, s.pendingBlocks, UserText(text), seen);
      NewHandKeepsApart(s.wire + [UserText(text)], s.pendingBlocks, [], seen, {});
      assert seen + {} == seen;
    case CancelStream =>
      NewHandKeepsApart(s.wire, s.pendingBlocks, [], seen, {});
      assert seen + {} == seen;
    case Event(Done(reason)) => DoneKeepsApart(s, reason, seen);
    case Event(e) =>
      if s.status == Streaming && (e.TextDelta? || e.ToolUseStart?) {
        DeltaKeepsApart(s, e, seen);
      } else {
        NewHandKeepsApart(s.wire, s.pendingBlocks, s.pendingBlocks, seen, SeenAfter(step, {}));
      }
    case _ =>
  }

  lemma {:induction false} RunKeepsAged(s: ChatState, steps: seq<Step>, seen: set<string>) returns (after: set<string>)
    requires Aged(s, seen) && TurnsApart(s.wire, s.pendingBlocks, seen) && FreshIds(steps, seen)
    ensures var t := Run(s, steps); Aged(t, after) && TurnsApart(t.wire, t.pendingBlocks, after)
    decreases |steps|
  {
    if steps == [] {
      after := seen;
    } else {
      hide Aged;
      hide TurnsApart;
      hide Apply;
      StepKeepsAged(s, steps[0], seen);
      StepKeepsApart(s, steps[0], seen);
      after := RunKeepsAged(Apply(s, steps[0]), steps[1..], SeenAfter(steps[0], seen));
    }
  }

  lemma AgedResultsAreOlder(s: ChatState, seen: set<string>)
    requires Aged(s, seen)
    ensures ResultsAreOlder(s)
  {
    forall r, name | r in s.pendingResults
      ensures r.toolUseId !in UseIds(s.pendingBlocks, name)
    {
      if r.toolUseId in UseIds(s.pendingBlocks, name) {
        UseIdIsUse(s.pendingBlocks, name, r.toolUseId);
      }
    }
  }

  /**
   * After any conversation whose tool-use ids are fresh and that has been ordered so far, a tool turn may
   * end and the next turn begin without harm exactly when not both buffers are filled.
   */
  lemma ReachedToolUseDoneIsSafeIff(steps: seq<Step>, text: string)
    requires FreshIds(steps, {}) && NeverPromotesPastResults(INITIAL_CHAT_STATE, steps)
    ensures var s := Run(INITIAL_CHAT_STATE, steps);
            Ordered(Apply(Apply(s, Event(Done(ToolUseStop))), Event(TextDelta(text))).wire)
            <==> !PromotesPastResults(s, Event(Done(ToolUseStop)))
  {
    var s := Run(INITIAL_CHAT_STATE, steps);
    NothingPendingIsNamed(INITIAL_CHAT_STATE, NO_LOG);
    RunStaysOrdered(INITIAL_CHAT_STATE, NO_LOG, steps);
    var seen := RunKeepsAged(INITIAL_CHAT_STATE, steps, {});
    AgedResultsAreOlder(s, seen);
    ToolUseDoneIsSafeIff(s, text);
  }

  lemma ResultIsAUse(results: seq<ResultBlock>, names: seq<string>, blocks: seq<Block>, k: nat)
    requires FifoAnswers(results, names, blocks) && k < |results|
    ensures IsUse(blocks, results[k].toolUseId)
  {
    var at := AnswerPosition(results, names, k);
    assert AnsweredIds(results, names, names[k]) <= UseIds(blocks, names[k]);
    UseIdIsUse(blocks, names[k], results[k].toolUseId);
  }

  /**
   * A whole conversation under the stream rule with fresh ids: the results of the events that named one tool
   * answer that tool's uses in the order asked, and no two results of the conversation answer the same use.
   */
  lemma ConversationAnswersInOrder(steps: seq<Step>, i: nat, j: nat, h: nat, k: nat)
    requires ObeysStreamRule(INITIAL_CHAT_STATE, steps) && FreshIds(steps, {}) && (i != h || j != k)
    requires var wire := Run(INITIAL_CHAT_STATE, steps).wire;
      && i < |wire| && wire[i].ToolResults? && j < |wire[i].results|
      && h < |wire| && wire[h].ToolResults? && k < |wire[h].results|
    ensures var wire, names := Run(INITIAL_CHAT_STATE, steps).wire, RunLog(INITIAL_CHAT_STATE, NO_LOG, steps).wire;
      && i > 0 && wire[i - 1].Assistant? && |names| == |wire|
      && FifoAnswers(wire[i].results, names[i], wire[i - 1].blocks)
      && wire[i].results[j].toolUseId != wire[h].results[k].toolUseId
  {
    ConversationStaysOrdered(steps);
    var seen := RunKeepsAged(INITIAL_CHAT_STATE, steps, {});
    var wire, names := Run(INITIAL_CHAT_STATE, steps).wire, RunLog(INITIAL_CHAT_STATE, NO_LOG, steps).wire;
    hide Run;
    hide RunLog;
    hide ObeysStreamRule;
    hide IsUse;
    hide FifoAnswers;
    if i == h {
      AnsweredAtMostOnce(wire[i].results, wire[i - 1].blocks, if j < k then j else k, if j < k then k else j);
    } else {
      ResultIsAUse(wire[i].results, names[i], wire[i - 1].blocks, j);
      ResultIsAUse(wire[h].results, names[h], wire[h - 1].blocks, k);
    }
  }
}
