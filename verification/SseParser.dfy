/** Incremental Server-Sent Events parser of the admin chat (lib/sse-parse.ts). */
module SseParser {
  import opened Options

  /** What `JSON.parse` plus the shape checks make of one event payload. */
  datatype Payload<+E> = Event(event: E) | Malformed | NotAnObject | NoKind

  datatype StreamError =
    | MalformedJson(payload: string)
    | PayloadNotAnObject(payload: string)
    | MissingKind(payload: string)

  /** Events yielded so far; once `error` is set the iterator has thrown and nothing follows. */
  datatype Outcome<+E> = Outcome(events: seq<E>, error: Option<StreamError>)

  /** `rest` is the text not yet consumed, `data` the data lines of the open event. */
  datatype Parsed<+E> = Parsed(rest: string, data: seq<string>, out: Outcome<E>)

  // ----- One line at a time -----

  predicate IsNewline(c: char) {
    c == '\n' || c == '\r'
  }

  ghost predicate NewlineFree(s: string) {
    forall i :: 0 <= i < |s| ==> !IsNewline(s[i])
  }

  predicate StartsWith(s: string, prefix: string) {
    |prefix| <= |s| && s[..|prefix|] == prefix
  }

  /** The value of a `data:` line: one leading space after the colon is stripped. */
  function FieldValue(line: string): string
    requires StartsWith(line, "data:")
  {
    if |line| > 5 && line[5] == ' ' then line[6..] else line[5..]
  }

  function JoinWithNewline(lines: seq<string>): string {
    if lines == [] then "" else if |lines| == 1 then lines[0]
    else lines[0] + "\n" + JoinWithNewline(lines[1..])
  }

  /** A complete event adds itself to the outcome, or ends it. */
  function Deliver<E>(parse: string -> Payload<E>, payload: string, out: Outcome<E>): Outcome<E> {
    match parse(payload)
    case Event(e) => Outcome(out.events + [e], out.error)
    case Malformed => Outcome(out.events, Some(MalformedJson(payload)))
    case NotAnObject => Outcome(out.events, Some(PayloadNotAnObject(payload)))
    case NoKind => Outcome(out.events, Some(MissingKind(payload)))
  }

  /** The effect of one complete line on the open event and the outcome. */
  function ApplyLine<E>(parse: string -> Payload<E>, line: string, data: seq<string>, out: Outcome<E>)
    : (seq<string>, Outcome<E>)
  {
    if line == "" then
      if data == [] then (data, out) else ([], Deliver(parse, JoinWithNewline(data), out))
    else if StartsWith(line, ":") then (data, out)
    else if StartsWith(line, "data:") then (data + [FieldValue(line)], out)
    else (data, out)
  }

  // ----- The reference: a whole text read line by line -----

  /** Index of the next LF or CR at or after `start`, or |s|. */
  function NewlineAt(s: string, start: nat): (i: nat)
    requires start <= |s|
    ensures start <= i <= |s| && NewlineFree(s[start..i]) && (i < |s| ==> IsNewline(s[i]))
    decreases |s| - start
  {
    if start == |s| || IsNewline(s[start]) then start else NewlineAt(s, start + 1)
  }

  /** A line is complete when its terminator is: a final CR may still be half of a CRLF. */
  predicate HasLine(text: string) {
    var i := NewlineAt(text, 0);
    i < |text| && (text[i] == '\r' ==> i + 1 < |text|)
  }

  function FirstLine(text: string): string
    requires HasLine(text)
  {
    text[..NewlineAt(text, 0)]
  }

  function AfterFirstLine(text: string): (rest: string)
    requires HasLine(text)
    ensures |rest| < |text|
  {
    var i := NewlineAt(text, 0);
    if text[i] == '\r' && text[i + 1] == '\n' then text[i + 2..] else text[i + 1..]
  }

  /** Reads every complete line of `text`, up to the first error. */
  function Consume<E>(parse: string -> Payload<E>, text: string, data: seq<string>, out: Outcome<E>)
    : (p: Parsed<E>)
    ensures p.out.error.None? ==> !HasLine(p.rest)
    decreases |text|
  {
    if out.error.Some? || !HasLine(text) then Parsed(text, data, out)
    else
      var (data', out') := ApplyLine(parse, FirstLine(text), data, out);
      Consume(parse, AfterFirstLine(text), data', out')
  }

  /** The outcome of a stream whose decoded text is `text`; a trailing partial event is dropped. */
  function ParseText<E>(parse: string -> Payload<E>, text: string): Outcome<E> {
    Consume(parse, text, [], Outcome([], None)).out
  }

  function Concat(chunks: seq<string>): string {
    if chunks == [] then "" else chunks[0] + Concat(chunks[1..])
  }

  lemma ConsumeLine<E>(parse: string -> Payload<E>, text: string, line: string, rest: string, data: seq<string>, out: Outcome<E>)
    requires out.error.None? && HasLine(text) && FirstLine(text) == line && AfterFirstLine(text) == rest
    ensures var (data', out') := ApplyLine(parse, line, data, out);
            Consume(parse, text, data, out) == Consume(parse, rest, data', out')
  {
  }

  lemma ConsumeNothing<E>(parse: string -> Payload<E>, text: string, data: seq<string>, out: Outcome<E>)
    requires out.error.Some? || !HasLine(text)
    ensures Consume(parse, text, data, out) == Parsed(text, data, out)
  {
  }

  // ----- Cutting the text does not matter -----

  lemma {:induction false} NewlineAtPrefix(s: string, t: string, start: nat)
    requires start <= |s|
    ensures var i, j := NewlineAt(s, start), NewlineAt(s + t, start);
            if i < |s| then j == i else j >= |s|
    decreases |s| - start
  {
    if start < |s| && !IsNewline(s[start]) {
      NewlineAtPrefix(s, t, start + 1);
    }
  }

  lemma LineSurvivesMoreText(s: string, t: string)
    requires HasLine(s)
    ensures HasLine(s + t)
    ensures FirstLine(s + t) == FirstLine(s) && AfterFirstLine(s + t) == AfterFirstLine(s) + t
  {
    NewlineAtPrefix(s, t, 0);
  }

  /** Reading s and then t after what s left over is the same as reading s + t. */
  lemma {:induction false} ConsumeInTwoParts<E>(
      parse: string -> Payload<E>, s: string, t: string, data: seq<string>, out: Outcome<E>)
    ensures var p := Consume(parse, s, data, out);
            var q := Consume(parse, s + t, data, out);
            if p.out.error.Some? then q.out == p.out
            else q == Consume(parse, p.rest + t, p.data, p.out)
    decreases |s|
  {
    if out.error.None? && HasLine(s) {
      LineSurvivesMoreText(s, t);
      var (data', out') := ApplyLine(parse, FirstLine(s), data, out);
      ConsumeInTwoParts(parse, AfterFirstLine(s), t, data', out');
    }
  }

  // ----- The incremental parser -----

  /** `scanBuf` is the line buffer without its last CR, if it ends in one. */
  ghost predicate HoldsBack(lineBuf: string, scanBuf: string) {
    if |lineBuf| > 0 && lineBuf[|lineBuf| - 1] == '\r' then scanBuf == lineBuf[..|lineBuf| - 1]
    else scanBuf == lineBuf
  }

  lemma {:induction false} NewlineAtIs(s: string, start: nat, i: nat)
    requires start <= i <= |s|
    requires forall k :: start <= k < i ==> !IsNewline(s[k])
    requires i < |s| ==> IsNewline(s[i])
    ensures NewlineAt(s, start) == i
    decreases i - start
  {
    if start < i {
      NewlineAtIs(s, start + 1, i);
    }
  }

  /** A terminator found while scanning ends the first line of what is left, CRLF and held CR included. */
  lemma ScanFindsFirstLine(lineBuf: string, scanBuf: string, from: nat, nl: nat, skip: nat)
    requires HoldsBack(lineBuf, scanBuf)
    requires from <= nl < |scanBuf| && nl == NewlineAt(scanBuf, from)
    requires skip == if scanBuf[nl] == '\r' && nl + 1 < |scanBuf| && scanBuf[nl + 1] == '\n' then 2 else 1
    ensures var text := lineBuf[from..];
            HasLine(text) && FirstLine(text) == scanBuf[from..nl] && AfterFirstLine(text) == lineBuf[nl + skip..]
  {
    var text := lineBuf[from..];
    assert text[..nl - from] == scanBuf[from..nl];
    assert text[nl - from] == scanBuf[nl];
    assert nl + 1 < |scanBuf| ==> text[nl - from + 1] == scanBuf[nl + 1];
    assert NewlineAt(text, 0) == nl - from by {
      forall k | 0 <= k < nl - from
        ensures !IsNewline(text[k])
      {
        assert text[k] == scanBuf[from..nl][k];
      }
      NewlineAtIs(text, 0, nl - from);
    }
    hide NewlineAt;
    assert text[nl - from + skip..] == lineBuf[nl + skip..];
  }

  lemma ScanFindsNoLine(lineBuf: string, scanBuf: string, from: nat)
    requires HoldsBack(lineBuf, scanBuf)
    requires from <= |scanBuf| && NewlineAt(scanBuf, from) == |scanBuf|
    ensures !HasLine(lineBuf[from..])
  {
    var text := lineBuf[from..];
    forall k | 0 <= k < |scanBuf| - from
      ensures !IsNewline(text[k])
    {
      assert text[k] == scanBuf[from..|scanBuf|][k];
    }
    NewlineAtIs(text, 0, |scanBuf| - from);
  }

  class Parser<E> {
    const parse: string -> Payload<E>
    var lineBuf: string
    var dataLines: seq<string>
    var out: Outcome<E>

    constructor (parse: string -> Payload<E>)
      ensures this.parse == parse
      ensures lineBuf == "" && dataLines == [] && out == Outcome([], None)
    {
      this.parse := parse;
      lineBuf, dataLines, out := "", [], Outcome([], None);
    }

    /** Closes the open event, if there is one. */
    method FlushEvent()
      requires out.error.None?
      modifies this`dataLines, this`out
      ensures (dataLines, out) == ApplyLine(parse, "", old(dataLines), old(out))
    {
      if |dataLines| == 0 {
        return;
      }
      var payload := JoinWithNewline(dataLines);
      dataLines := [];
      match parse(payload) {
        case Malformed => out := Outcome(out.events, Some(MalformedJson(payload)));
        case NotAnObject => out := Outcome(out.events, Some(PayloadNotAnObject(payload)));
        case NoKind => out := Outcome(out.events, Some(MissingKind(payload)));
        case Event(e) => out := Outcome(out.events + [e], None);
      }
    }

    /** The body of the scan loop, for a line already cut out of the buffer. */
    method TakeLine(line: string)
      requires out.error.None?
      modifies this`dataLines, this`out
      ensures (dataLines, out) == ApplyLine(parse, line, old(dataLines), old(out))
    {
      if line == "" {
        FlushEvent();
      } else if StartsWith(line, ":") {
      } else if StartsWith(line, "data:") {
        dataLines := dataLines + [FieldValue(line)];
      }
    }

    /** One turn of the read loop, for one decoded chunk. */
    method Read(chunk: string)
      requires out.error.None?
      modifies this
      ensures var p := Consume(parse, old(lineBuf) + chunk, old(dataLines), old(out));
              out == p.out && (out.error.None? ==> lineBuf == p.rest && dataLines == p.data && !HasLine(lineBuf))
    {
      hide Consume;
      hide HasLine;
      lineBuf := lineBuf + chunk;
      ghost var buf := lineBuf;
      ghost var goal := Consume(parse, buf, dataLines, out);
      var heldCr := |lineBuf| > 0 && lineBuf[|lineBuf| - 1] == '\r';
      var scanBuf := if heldCr then lineBuf[..|lineBuf| - 1] else lineBuf;
      var consumedUpTo := 0;
      assert buf[0..] == buf;
      var found, line, next := NextLine(buf, scanBuf, consumedUpTo);
      while found
        invariant HoldsBack(buf, scanBuf) && consumedUpTo <= |scanBuf| <= |buf|
        invariant LineAhead(buf, scanBuf, consumedUpTo, found, line, next)
        invariant out.error.None?
        invariant Consume(parse, buf[consumedUpTo..], dataLines, out) == goal
        decreases |scanBuf| - consumedUpTo
      {
        ConsumeLine(parse, buf[consumedUpTo..], line, buf[next..], dataLines, out);
        consumedUpTo := next;
        TakeLine(line);
        if out.error.Some? {
          ConsumeNothing(parse, buf[next..], dataLines, out);
          return;
        }
        found, line, next := NextLine(buf, scanBuf, consumedUpTo);
      }
      ConsumeNothing(parse, buf[consumedUpTo..], dataLines, out);
      lineBuf := scanBuf[consumedUpTo..] + (if heldCr then "\r" else "");
      assert lineBuf == buf[consumedUpTo..];
    }
  }

  /** Either the first line of what is left of `buf` and where it ends, or that there is none yet. */
  ghost predicate LineAhead(buf: string, scanBuf: string, from: nat, found: bool, line: string, next: nat)
    requires from <= |scanBuf| <= |buf|
  {
    var text := buf[from..];
    if found then
      from < next <= |scanBuf| && HasLine(text) && FirstLine(text) == line && AfterFirstLine(text) == buf[next..]
    else
      !HasLine(text)
  }

  /** The scan itself: cut the next line out of `scanBuf` and step over its terminator. */
  method NextLine(ghost buf: string, scanBuf: string, consumedUpTo: nat) returns (found: bool, line: string, next: nat)
    requires HoldsBack(buf, scanBuf) && consumedUpTo <= |scanBuf|
    ensures LineAhead(buf, scanBuf, consumedUpTo, found, line, next)
  {
    var nl := NextLineEnd(scanBuf, consumedUpTo);
    if nl < 0 {
      ScanFindsNoLine(buf, scanBuf, consumedUpTo);
      return false, "", consumedUpTo;
    }
    var skip := if scanBuf[nl] == '\r' && nl + 1 < |scanBuf| && scanBuf[nl + 1] == '\n' then 2 else 1;
    ScanFindsFirstLine(buf, scanBuf, consumedUpTo, nl, skip);
    return true, scanBuf[consumedUpTo..nl], nl + skip;
  }

  /** Index of the next line terminator in `s` at or after `start`, or -1. */
  method NextLineEnd(s: string, start: nat) returns (nl: int)
    requires start <= |s|
    ensures nl == if NewlineAt(s, start) < |s| then NewlineAt(s, start) else -1
  {
    var i := start;
    while i < |s|
      invariant start <= i <= |s|
      invariant NewlineAt(s, start) == NewlineAt(s, i)
    {
      if IsNewline(s[i]) {
        return i;
      }
      i := i + 1;
    }
    return -1;
  }

  /** The read loop: one `Read` per chunk until the stream ends or a payload is bad. */
  method IterateEvents<E>(parse: string -> Payload<E>, chunks: seq<string>) returns (out: Outcome<E>)
    ensures out == ParseText(parse, Concat(chunks))
  {
    hide Consume;
    var parser := new Parser<E>(parse);
    var k := 0;
    assert chunks[0..] == chunks && "" + Concat(chunks) == Concat(chunks);
    while k < |chunks|
      invariant 0 <= k <= |chunks|
      invariant parser.parse == parse && parser.out.error.None? && !HasLine(parser.lineBuf)
      invariant Consume(parse, parser.lineBuf + Concat(chunks[k..]), parser.dataLines, parser.out).out
                == ParseText(parse, Concat(chunks))
      invariant fresh(parser)
    {
      NextChunk(parse, parser.lineBuf, chunks[k..], parser.dataLines, parser.out);
      assert chunks[k..][1..] == chunks[k + 1..];
      parser.Read(chunks[k]);
      if parser.out.error.Some? {
        return parser.out;
      }
      k := k + 1;
    }
    out := parser.out;
    assert parser.lineBuf + Concat(chunks[k..]) == parser.lineBuf;
    ConsumeNothing(parse, parser.lineBuf, parser.dataLines, parser.out);
  }

  lemma NextChunk<E>(parse: string -> Payload<E>, buf: string, chunks: seq<string>, data: seq<string>, out: Outcome<E>)
    requires chunks != []
    ensures var p := Consume(parse, buf + chunks[0], data, out);
            var q := Consume(parse, buf + Concat(chunks), data, out);
            q.out == if p.out.error.Some? then p.out
                     else Consume(parse, p.rest + Concat(chunks[1..]), p.data, p.out).out
  {
    ConsumeInTwoParts(parse, buf + chunks[0], Concat(chunks[1..]), data, out);
    assert buf + Concat(chunks) == buf + chunks[0] + Concat(chunks[1..]);
  }

  // ----- What the agent route prints -----

  /** A frame the route writes: an event payload or a keepalive comment; a proxy may use CRLF. */
  datatype Frame = Data(payload: string, crlf: bool) | Comment(text: string, crlf: bool)

  function Eol(crlf: bool): string {
    if crlf then "\r\n" else "\n"
  }

  function FrameLine(f: Frame): string {
    match f
    case Data(p, _) => "data: " + p
    case Comment(t, _) => ":" + t
  }

  function PrintFrame(f: Frame): string {
    FrameLine(f) + Eol(f.crlf) + Eol(f.crlf)
  }

  function Print(frames: seq<Frame>): string {
    if frames == [] then "" else PrintFrame(frames[0]) + Print(frames[1..])
  }

  ghost predicate SingleLine(f: Frame) {
    NewlineFree(FrameLine(f))
  }

  function Payloads(frames: seq<Frame>): seq<string> {
    if frames == [] then []
    else (if frames[0].Data? then [frames[0].payload] else []) + Payloads(frames[1..])
  }

  /** Payloads delivered in order, up to and including the first bad one. */
  function DeliverAll<E>(parse: string -> Payload<E>, payloads: seq<string>, out: Outcome<E>): Outcome<E> {
    if payloads == [] || out.error.Some? then out
    else DeliverAll(parse, payloads[1..], Deliver(parse, payloads[0], out))
  }

  lemma LineThenEol(line: string, crlf: bool, rest: string)
    requires NewlineFree(line)
    ensures var text := line + Eol(crlf) + rest;
            HasLine(text) && FirstLine(text) == line && AfterFirstLine(text) == rest
  {
    NewlineAtIs(line + Eol(crlf) + rest, 0, |line|);
  }

  /** A printed frame is read back as its payload, or as nothing when it is a comment. */
  lemma ConsumeFrame<E>(parse: string -> Payload<E>, f: Frame, rest: string, out: Outcome<E>)
    requires SingleLine(f) && out.error.None?
    ensures Consume(parse, PrintFrame(f) + rest, [], out)
            == Consume(parse, rest, [], if f.Data? then Deliver(parse, f.payload, out) else out)
  {
    hide Consume;
    hide HasLine;
    hide FirstLine;
    hide AfterFirstLine;
    var line, eol := FrameLine(f), Eol(f.crlf);
    assert PrintFrame(f) + rest == line + eol + (eol + rest);
    LineThenEol(line, f.crlf, eol + rest);
    ApplyFrameLine(parse, f, out);
    var data := if f.Data? then [f.payload] else [];
    ConsumeLine(parse, PrintFrame(f) + rest, line, eol + rest, [], out);
    assert eol + rest == "" + eol + rest;
    LineThenEol("", f.crlf, rest);
    ConsumeLine(parse, eol + rest, "", rest, data, out);
  }

  lemma ApplyFrameLine<E>(parse: string -> Payload<E>, f: Frame, out: Outcome<E>)
    ensures ApplyLine(parse, FrameLine(f), [], out) == (if f.Data? then [f.payload] else [], out)
  {
    var line := FrameLine(f);
    match f
    case Data(p, _) =>
      assert line[..1][0] == 'd' && ":"[0] == ':';
      assert line[..5] == "data:" && line[5] == ' ' && line[6..] == p;
      assert [] + [p] == [p];
    case Comment(t, _) =>
      assert line[..1] == ":";
  }

  lemma {:induction false} ConsumePrinted<E>(parse: string -> Payload<E>, frames: seq<Frame>, out: Outcome<E>)
    requires forall f :: f in frames ==> SingleLine(f)
    ensures Consume(parse, Print(frames), [], out).out == DeliverAll(parse, Payloads(frames), out)
  {
    if frames != [] && out.error.None? {
      var f := frames[0];
      ConsumeFrame(parse, f, Print(frames[1..]), out);
      ConsumePrinted(parse, frames[1..], if f.Data? then Deliver(parse, f.payload, out) else out);
      assert f.Data? ==> Payloads(frames)[0] == f.payload && Payloads(frames)[1..] == Payloads(frames[1..]);
      assert f.Comment? ==> Payloads(frames) == Payloads(frames[1..]);
    }
  }

  /**
   * Frames printed by the route, cut into chunks anywhere, are read back as exactly their
   * payloads in order, and as exactly the events up to the first bad payload when there is one.
   */
  lemma PrintedFramesReadBack<E>(parse: string -> Payload<E>, frames: seq<Frame>, chunks: seq<string>)
    requires forall f :: f in frames ==> SingleLine(f)
    requires Concat(chunks) == Print(frames)
    ensures ParseText(parse, Concat(chunks)) == DeliverAll(parse, Payloads(frames), Outcome([], None))
  {
    ConsumePrinted(parse, frames, Outcome([], None));
  }

  /** When every payload is good, all of them come back and nothing else. */
  lemma {:induction false} GoodPayloadsAllDelivered<E>(
      parse: string -> Payload<E>, payloads: seq<string>, events: seq<E>, out: Outcome<E>)
    requires |events| == |payloads| && out.error.None?
    requires forall k :: 0 <= k < |payloads| ==> parse(payloads[k]) == Event(events[k])
    ensures DeliverAll(parse, payloads, out) == Outcome(out.events + events, None)
  {
    if payloads != [] {
      GoodPayloadsAllDelivered(parse, payloads[1..], events[1..], Deliver(parse, payloads[0], out));
      assert out.events + events == out.events + [events[0]] + events[1..];
    }
  }
}
