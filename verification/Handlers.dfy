/** The two consumers of internal/app/handler.go: the streaming writer and the non-streaming
collector, each as a state machine over upstream events and as the method that runs it. */
module Handlers {
  import opened GoStrings
  import opened Events
  import opened Normalizer
  import Sse

  /** What a handler is given: the decoded events of one upstream response and how it ended. */
  datatype Upstream = Upstream(events: seq<Event>, end: Sse.Stop)

  datatype Cause = FromEvent(error: EventError) | FromParse(parse: Sse.ParseError)

  datatype Failure =
    | StreamError(cause: Cause)
    | Incomplete(doneMarker: bool)
    | InvalidToolCall

  datatype StreamToolCall = StreamToolCall(index: nat, id: string, typ: string, name: string, arguments: string)

  /** One server-sent frame to the client, without its constant id, model and time. */
  datatype Frame =
    | Chunk(role: bool, content: string, reasoning: string, calls: seq<StreamToolCall>, finish: Option<FinishReason>)
    | UsageFrame(usage: Usage)
    | ErrorFrame(failure: Failure)
    | DoneFrame

  datatype Counts = Counts(prompt: int, completion: int, cacheRead: int, cacheWrite: int)

  function CountsOf(n: Norm): Counts {
    Counts(n.usage.prompt, n.usage.completion, n.cacheRead, n.cacheWrite)
  }

  // How an upstream that never finished is reported.
  function EarlyEnd(end: Sse.Stop): Failure {
    match end
    case Failed(e) => StreamError(FromParse(e))
    case DoneMarker => Incomplete(true)
    case EndOfStream => Incomplete(false)
  }

  // ------------------------------------------------------------ streaming writer

  datatype Stream = Stream(
    norm: Norm, collected: seq<ToolCall>, firstText: bool, done: bool, finishing: bool,
    out: seq<Frame>, error: Option<EventError>)

  const STREAM_START: Stream := Stream(INITIAL, [], true, false, false, [], None)

  function EmitContent(s: Stream, text: string, reasoning: bool): Stream {
    if text == "" || s.done then s
    else
      var frame := if reasoning then Chunk(s.firstText, "", text, [], None) else Chunk(s.firstText, text, "", [], None);
      s.(firstText := false, out := s.out + [frame])
  }

  function CallFrame(role: bool, index: nat, call: ToolCall): Frame {
    Chunk(role, "", "", [StreamToolCall(index, call.id, call.typ, call.name, call.arguments)], None)
  }

  // The frames of the collected calls; the first carries the role if nothing did before.
  function CallFrames(firstText: bool, calls: seq<ToolCall>): (frames: seq<Frame>)
    ensures |frames| == |calls|
    ensures forall i :: 0 <= i < |frames| ==> frames[i] == CallFrame(firstText && i == 0, i, calls[i])
  {
    if calls == [] then []
    else
      var n := |calls| - 1;
      CallFrames(firstText, calls[..n]) + [CallFrame(firstText && n == 0, n, calls[n])]
  }

  lemma OneMoreCall(firstText: bool, calls: seq<ToolCall>, n: nat)
    requires n < |calls|
    ensures CallFrames(firstText, calls[..n + 1])
      == CallFrames(firstText, calls[..n]) + [CallFrame(firstText && n == 0, n, calls[n])]
  {
    assert calls[..n + 1][..n] == calls[..n];
  }

  function CollectCall(codec: Codec, s: Stream, call: ToolCall): Stream {
    match ToolCallProblem(codec, call)
    case Some(e) => s.(error := Some(e))
    case None => s.(collected := AddCall(s.collected, call))
  }

  function FinishFrames(reason: FinishReason, usage: Usage, includeUsage: bool): seq<Frame> {
    [Chunk(false, "", "", [], Some(reason))] + (if includeUsage then [UsageFrame(usage)] else []) + [DoneFrame]
  }

  function FinishStream(s: Stream, reason: FinishReason, usage: Usage, truncated: bool, includeUsage: bool): Stream {
    if s.done || s.finishing then s
    else if reason == ToolCallsReason && s.collected == [] then s.(finishing := true, error := Some(NoValidToolCalls))
    else
      var frames := CallFrames(s.firstText, s.collected)
        + FinishFrames(ResolveFinishReason(reason, s.collected != [], truncated), usage, includeUsage);
      s.(finishing := true, done := true, firstText := s.firstText && s.collected == [], out := s.out + frames)
  }

  function FailStream(s: Stream, failure: Failure): Stream {
    if s.done then s else s.(done := true, out := s.out + [ErrorFrame(failure), DoneFrame])
  }

  function StreamNorm(codec: Codec, s: Stream, e: NormEvent, includeUsage: bool): Stream {
    match e
    case TextOut(text) => EmitContent(s, text, false)
    case ReasoningOut(text) => EmitContent(s, text, true)
    case CallOut(call) => CollectCall(codec, s, call)
    case TextEndOut => s
    case ReasoningEndOut => s
    case FinishOut(reason, usage, truncated) => FinishStream(s, reason, usage, truncated, includeUsage)
  }

  function StreamNorms(codec: Codec, s: Stream, es: seq<NormEvent>, includeUsage: bool): Stream {
    if es == [] then s
    else
      var before := StreamNorms(codec, s, es[..|es| - 1], includeUsage);
      if before.error.Some? then before else StreamNorm(codec, before, es[|es| - 1], includeUsage)
  }

  /** The callback of the streaming handler, for one event. */
  function StreamEvent(codec: Codec, s: Stream, ev: Event, includeUsage: bool): Stream {
    var step := Consume(codec, s.norm, ev);
    match step.result
    case Err(e) => s.(norm := step.state, error := Some(e))
    case Ok(es) => StreamNorms(codec, s.(norm := step.state), es, includeUsage)
  }

  function StreamEvents(codec: Codec, events: seq<Event>, includeUsage: bool): Stream {
    if events == [] then STREAM_START
    else
      var before := StreamEvents(codec, events[..|events| - 1], includeUsage);
      if before.error.Some? then before else StreamEvent(codec, before, events[|events| - 1], includeUsage)
  }

  function StreamEnd(s: Stream, end: Sse.Stop): Stream {
    if s.error.Some? then FailStream(s, StreamError(FromEvent(s.error.value)))
    else if end.Failed? then FailStream(s, StreamError(FromParse(end.error)))
    else if !s.done then FailStream(s, EarlyEnd(end))
    else s
  }

  /** The frames sent to the client and the counts recorded. */
  datatype Streamed = Streamed(out: seq<Frame>, recorded: Counts)

  function StreamRun(codec: Codec, up: Upstream, includeUsage: bool): Streamed {
    var s := StreamEnd(StreamEvents(codec, up.events, includeUsage), up.end);
    Streamed(s.out, CountsOf(s.norm))
  }

  // ------------------------------------------------------- non-streaming collector

  datatype Collect = Collect(
    norm: Norm, calls: seq<ToolCall>, text: string, reasoning: string,
    reason: Option<FinishReason>, truncated: bool, error: Option<EventError>)

  const COLLECT_START: Collect := Collect(INITIAL, [], "", "", None, false, None)

  function CollectNorm(codec: Codec, c: Collect, e: NormEvent): Collect {
    match e
    case TextOut(text) => c.(text := c.text + text)
    case ReasoningOut(text) => c.(reasoning := c.reasoning + text)
    case CallOut(call) =>
      (match ToolCallProblem(codec, call)
       case Some(e) => c.(error := Some(e))
       case None => c.(calls := AddCall(c.calls, call)))
    case TextEndOut => c
    case ReasoningEndOut => c
    case FinishOut(reason, _, truncated) => c.(reason := Some(reason), truncated := truncated)
  }

  function CollectNorms(codec: Codec, c: Collect, es: seq<NormEvent>): Collect {
    if es == [] then c
    else
      var before := CollectNorms(codec, c, es[..|es| - 1]);
      if before.error.Some? then before else CollectNorm(codec, before, es[|es| - 1])
  }

  function CollectEvent(codec: Codec, c: Collect, ev: Event): Collect {
    var step := Consume(codec, c.norm, ev);
    match step.result
    case Err(e) => c.(norm := step.state, error := Some(e))
    case Ok(es) => CollectNorms(codec, c.(norm := step.state), es)
  }

  function CollectEvents(codec: Codec, events: seq<Event>): Collect {
    if events == [] then COLLECT_START
    else
      var before := CollectEvents(codec, events[..|events| - 1]);
      if before.error.Some? then before else CollectEvent(codec, before, events[|events| - 1])
  }

  datatype Reply =
    | Refused(failure: Failure)
    | Answer(text: string, reasoning: string, calls: seq<ToolCall>, finish: FinishReason, usage: Usage)

  datatype Replied = Replied(reply: Reply, recorded: Option<Counts>)

  // The last test never fires on its own: a finished normalizer has reported its reason.
  function CollectEnd(c: Collect, end: Sse.Stop): Replied {
    if c.error.Some? then Replied(Refused(StreamError(FromEvent(c.error.value))), None)
    else if end.Failed? then Replied(Refused(StreamError(FromParse(end.error))), None)
    else if !c.norm.finished || c.reason.None? then Replied(Refused(EarlyEnd(end)), None)
    else if c.reason.value == ToolCallsReason && c.calls == [] then Replied(Refused(InvalidToolCall), None)
    else
      var finish := ResolveFinishReason(c.reason.value, c.calls != [], c.truncated);
      Replied(Answer(c.text, c.reasoning, c.calls, finish, c.norm.usage), Some(CountsOf(c.norm)))
  }

  function CollectRun(codec: Codec, up: Upstream): Replied {
    CollectEnd(CollectEvents(codec, up.events), up.end)
  }

  // ------------------------------------------------------------------ the methods

  /** The closures of handleStreamWithOptions and the variables they share. */
  class StreamWriter {
    const includeUsage: bool
    const normalizer: EventNormalizer
    const collected: ToolCallDeduper
    var firstText: bool
    var done: bool
    var finishing: bool
    var out: seq<Frame>

    constructor (codec: Codec, includeUsage: bool)
      ensures Valid() && fresh(Repr()) && State() == STREAM_START
      ensures normalizer.codec == codec && this.includeUsage == includeUsage
    {
      this.includeUsage := includeUsage;
      normalizer := new EventNormalizer(codec);
      collected := new ToolCallDeduper();
      firstText, done, finishing, out := true, false, false, [];
    }

    function Repr(): set<object> {
      {this, normalizer, normalizer.toolCalls, collected}
    }

    predicate Valid() {
      collected != normalizer.toolCalls
    }

    function State(): Stream
      reads Repr()
    {
      Stream(normalizer.State(), collected.kept, firstText, done, finishing, out, None)
    }

    method Emit(content: string, reasoning: bool)
      requires Valid()
      modifies this
      ensures State() == EmitContent(old(State()), content, reasoning)
    {
      if content == "" || done {
        return;
      }
      var frame := if reasoning then Chunk(false, "", content, [], None) else Chunk(false, content, "", [], None);
      if firstText {
        frame := frame.(role := true);
        firstText := false;
      }
      out := out + [frame];
    }

    method EmitCollectedToolCalls()
      requires Valid()
      modifies this
      ensures State() == old(State()).(
        firstText := old(firstText) && old(collected.kept) == [],
        out := old(out) + CallFrames(old(firstText), old(collected.kept)))
    {
      hide CallFrames;
      var kept := collected.kept;
      assert CallFrames(firstText, kept[..0]) == [];
      var index := 0;
      while index < |kept|
        invariant 0 <= index <= |kept|
        invariant firstText == (old(firstText) && index == 0)
        invariant out == old(out) + CallFrames(old(firstText), kept[..index])
        invariant done == old(done) && finishing == old(finishing)
      {
        OneMoreCall(old(firstText), kept, index);
        var frame := CallFrame(false, index, kept[index]);
        if firstText {
          frame := frame.(role := true);
          firstText := false;
        }
        out := out + [frame];
        index := index + 1;
      }
      assert kept[..index] == kept;
    }

    method FinishTheStream(reason: FinishReason, usage: Usage, truncated: bool) returns (err: Option<EventError>)
      requires Valid()
      modifies this
      ensures State().(error := err) == FinishStream(old(State()), reason, usage, truncated, includeUsage)
    {
      hide CallFrames, ResolveFinishReason, FinishFrames;
      if done || finishing {
        return None;
      }
      finishing := true;
      var hasToolCalls := |collected.kept| > 0;
      if reason == ToolCallsReason && !hasToolCalls {
        return Some(NoValidToolCalls);
      }
      EmitCollectedToolCalls();
      EmitFinish(ResolveFinishReason(reason, hasToolCalls, truncated), usage);
      done := true;
      return None;
    }

    method EmitFinish(finish: FinishReason, usage: Usage)
      modifies this`out
      ensures out == old(out) + FinishFrames(finish, usage, includeUsage)
    {
      out := out + [Chunk(false, "", "", [], Some(finish))];
      if includeUsage {
        out := out + [UsageFrame(usage)];
      }
      out := out + [DoneFrame];
    }

    method FailTheStream(failure: Failure)
      requires Valid()
      modifies this
      ensures State() == FailStream(old(State()), failure)
    {
      if done {
        return;
      }
      out := out + [ErrorFrame(failure)];
      out := out + [DoneFrame];
      done := true;
    }

    // One turn of the inner loop over normalized events.
    method OnNormalized(e: NormEvent) returns (err: Option<EventError>)
      requires Valid()
      modifies this, collected
      ensures State().(error := err) == StreamNorm(normalizer.codec, old(State()), e, includeUsage)
    {
      err := None;
      match e {
        case TextOut(text) => Emit(text, false);
        case ReasoningOut(text) => Emit(text, true);
        case CallOut(call) =>
          err := ToolCallProblem(normalizer.codec, call);
          if err.None? {
            var _ := collected.Add(call);
          }
        case TextEndOut =>
        case ReasoningEndOut =>
        case FinishOut(reason, usage, truncated) => err := FinishTheStream(reason, usage, truncated);
      }
    }

    /** The callback given to the parser. */
    method OnEvent(ev: Event) returns (err: Option<EventError>)
      requires Valid()
      modifies Repr()
      ensures State().(error := err) == StreamEvent(normalizer.codec, old(State()), ev, includeUsage)
    {
      hide StreamNorm, Consume;
      var result := normalizer.ConsumeEvent(ev);
      if result.Err? {
        return Some(result.error);
      }
      var es, i := result.value, 0;
      ghost var s := State();
      err := None;
      while i < |es|
        invariant 0 <= i <= |es|
        invariant err == None
        invariant State() == StreamNorms(normalizer.codec, s, es[..i], includeUsage)
      {
        assert es[..i + 1][..i] == es[..i];
        err := OnNormalized(es[i]);
        i := i + 1;
        if err.Some? {
          StreamNormsStop(normalizer.codec, s, es, i, includeUsage);
          return;
        }
      }
      assert es[..i] == es;
    }
  }

  // Nothing more happens to the normalized events after one that was refused.
  lemma StreamNormsStop(codec: Codec, s: Stream, es: seq<NormEvent>, i: nat, includeUsage: bool)
    requires i <= |es| && StreamNorms(codec, s, es[..i], includeUsage).error.Some?
    ensures StreamNorms(codec, s, es, includeUsage) == StreamNorms(codec, s, es[..i], includeUsage)
  {
    if i == |es| {
      assert es[..i] == es;
    } else {
      var n := |es| - 1;
      assert es[..n][..i] == es[..i];
      StreamNormsStop(codec, s, es[..n], i, includeUsage);
    }
  }

  lemma StreamEventsStop(codec: Codec, events: seq<Event>, i: nat, includeUsage: bool)
    requires i <= |events| && StreamEvents(codec, events[..i], includeUsage).error.Some?
    ensures StreamEvents(codec, events, includeUsage) == StreamEvents(codec, events[..i], includeUsage)
  {
    if i == |events| {
      assert events[..i] == events;
    } else {
      var n := |events| - 1;
      assert events[..n][..i] == events[..i];
      StreamEventsStop(codec, events[..n], i, includeUsage);
    }
  }

  /** handleStreamWithOptions, from the first upstream event to the recorded usage. */
  method HandleStream(codec: Codec, up: Upstream, includeUsage: bool) returns (r: Streamed)
    ensures r == StreamRun(codec, up, includeUsage)
  {
    hide StreamEvent, Consume;
    var w := new StreamWriter(codec, includeUsage);
    var err: Option<EventError> := None;
    var i := 0;
    while i < |up.events| && err.None?
      invariant 0 <= i <= |up.events|
      invariant w.Valid() && fresh(w.Repr())
      invariant w.State().(error := err) == StreamEvents(codec, up.events[..i], includeUsage)
    {
      assert up.events[..i + 1][..i] == up.events[..i];
      err := w.OnEvent(up.events[i]);
      i := i + 1;
    }
    if err.Some? {
      StreamEventsStop(codec, up.events, i, includeUsage);
      w.FailTheStream(StreamError(FromEvent(err.value)));
    } else {
      assert up.events[..i] == up.events;
      if up.end.Failed? {
        w.FailTheStream(StreamError(FromParse(up.end.error)));
      } else if !w.done {
        w.FailTheStream(Incomplete(up.end.DoneMarker?));
      }
    }
    var usage := w.normalizer.usage;
    r := Streamed(w.out, Counts(usage.prompt, usage.completion, w.normalizer.cacheRead, w.normalizer.cacheWrite));
  }

  lemma CollectNormsStop(codec: Codec, c: Collect, es: seq<NormEvent>, i: nat)
    requires i <= |es| && CollectNorms(codec, c, es[..i]).error.Some?
    ensures CollectNorms(codec, c, es) == CollectNorms(codec, c, es[..i])
  {
    if i == |es| {
      assert es[..i] == es;
    } else {
      var n := |es| - 1;
      assert es[..n][..i] == es[..i];
      CollectNormsStop(codec, c, es[..n], i);
    }
  }

  lemma CollectEventsStop(codec: Codec, events: seq<Event>, i: nat)
    requires i <= |events| && CollectEvents(codec, events[..i]).error.Some?
    ensures CollectEvents(codec, events) == CollectEvents(codec, events[..i])
  {
    if i == |events| {
      assert events[..i] == events;
    } else {
      var n := |events| - 1;
      assert events[..n][..i] == events[..i];
      CollectEventsStop(codec, events[..n], i);
    }
  }

  /** handleNonStream's variables, and its callback. */
  class Collector {
    const normalizer: EventNormalizer
    const toolCalls: ToolCallDeduper
    var text: string
    var reasoning: string
    var finishReason: Option<FinishReason>
    var truncated: bool

    constructor (codec: Codec)
      ensures Valid() && fresh(Repr()) && State() == COLLECT_START && normalizer.codec == codec
    {
      normalizer := new EventNormalizer(codec);
      toolCalls := new ToolCallDeduper();
      text, reasoning, finishReason, truncated := "", "", None, false;
    }

    function Repr(): set<object> {
      {this, normalizer, normalizer.toolCalls, toolCalls}
    }

    predicate Valid() {
      toolCalls != normalizer.toolCalls
    }

    function State(): Collect
      reads Repr()
    {
      Collect(normalizer.State(), toolCalls.kept, text, reasoning, finishReason, truncated, None)
    }

    method OnNormalized(e: NormEvent) returns (err: Option<EventError>)
      requires Valid()
      modifies this, toolCalls
      ensures State().(error := err) == CollectNorm(normalizer.codec, old(State()), e)
    {
      err := None;
      match e {
        case TextOut(t) => text := text + t;
        case ReasoningOut(t) => reasoning := reasoning + t;
        case CallOut(call) =>
          err := ToolCallProblem(normalizer.codec, call);
          if err.None? {
            var _ := toolCalls.Add(call);
          }
        case TextEndOut =>
        case ReasoningEndOut =>
        case FinishOut(reason, _, cut) => finishReason, truncated := Some(reason), cut;
      }
    }

    method OnEvent(ev: Event) returns (err: Option<EventError>)
      requires Valid()
      modifies Repr()
      ensures State().(error := err) == CollectEvent(normalizer.codec, old(State()), ev)
    {
      hide CollectNorm, Consume;
      var result := normalizer.ConsumeEvent(ev);
      if result.Err? {
        return Some(result.error);
      }
      var es, i := result.value, 0;
      ghost var c := State();
      err := None;
      while i < |es|
        invariant 0 <= i <= |es|
        invariant err == None
        invariant State() == CollectNorms(normalizer.codec, c, es[..i])
      {
        assert es[..i + 1][..i] == es[..i];
        err := OnNormalized(es[i]);
        i := i + 1;
        if err.Some? {
          CollectNormsStop(normalizer.codec, c, es, i);
          return;
        }
      }
      assert es[..i] == es;
    }
  }

  /** handleNonStream, from the first upstream event to the response. */
  method HandleNonStream(codec: Codec, up: Upstream) returns (r: Replied)
    ensures r == CollectRun(codec, up)
  {
    hide CollectEvent, Consume;
    var c := new Collector(codec);
    var err: Option<EventError> := None;
    var i := 0;
    while i < |up.events| && err.None?
      invariant 0 <= i <= |up.events|
      invariant c.Valid() && fresh(c.Repr())
      invariant c.State().(error := err) == CollectEvents(codec, up.events[..i])
    {
      assert up.events[..i + 1][..i] == up.events[..i];
      err := c.OnEvent(up.events[i]);
      i := i + 1;
    }
    if err.Some? {
      CollectEventsStop(codec, up.events, i);
      return Replied(Refused(StreamError(FromEvent(err.value))), None);
    }
    assert up.events[..i] == up.events;
    if up.end.Failed? {
      return Replied(Refused(StreamError(FromParse(up.end.error))), None);
    }
    if !c.normalizer.finished || c.finishReason.None? {
      return Replied(Refused(Incomplete(up.end.DoneMarker?)), None);
    }
    var reason, calls := c.finishReason.value, c.toolCalls.kept;
    if reason == ToolCallsReason && |calls| == 0 {
      return Replied(Refused(InvalidToolCall), None);
    }
    var finish := ResolveFinishReason(reason, |calls| > 0, c.truncated);
    var usage := c.normalizer.usage;
    r := Replied(
      Answer(c.text, c.reasoning, calls, finish, usage),
      Some(Counts(usage.prompt, usage.completion, c.normalizer.cacheRead, c.normalizer.cacheWrite)));
  }
}
