/** What the two handlers promise: the shape of the stream, which calls are emitted, which usage
is reported, and when the two agree. */
module HandlerProperties {
  import opened GoStrings
  import opened Events
  import opened Normalizer
  import opened Handlers
  import opened Outcomes

  // --------------------------------------------------------- the stream, closed

  function Render(deltas: seq<Delta>, outcome: Outcome, includeUsage: bool): seq<Frame> {
    match outcome
    case Finished(calls, reason, usage) =>
      ContentFrames(deltas) + (CallFrames(deltas == [], calls) + FinishFrames(reason, usage, includeUsage))
    case Broke(failure) =>
      ContentFrames(deltas) + [ErrorFrame(failure), DoneFrame]
  }

  // The events up to and including the boundary event.
  function UpToBoundary(codec: Codec, up: Upstream): seq<Event> {
    var b := Boundary(codec, up.events);
    if b < |up.events| then up.events[..b + 1] else up.events
  }

  lemma BoundaryEvent(codec: Codec, up: Upstream)
    requires Boundary(codec, up.events) < |up.events|
    ensures
      var b := Boundary(codec, up.events);
      && UpToBoundary(codec, up) == Before(codec, up) + [up.events[b]]
      && UpToBoundary(codec, up)[..b] == Before(codec, up)
      && up.events == UpToBoundary(codec, up) + AfterFinish(codec, up)
      && AllQuiet(codec, Before(codec, up))
  {
  }

  lemma CallsAreGood(codec: Codec, up: Upstream)
    ensures AllValid(codec, Calls(codec, up)) && DistinctIds(Calls(codec, up))
  {
    CallsInAreGood(codec, Before(codec, up));
    KeptAreValid(codec, CallsIn(codec, Before(codec, up)));
    FirstPerIdMeaning(CallsIn(codec, Before(codec, up)));
  }

  // The normalizer's answer to the finish event.
  lemma NormAtFinish(codec: Codec, up: Upstream)
    requires Reached(codec, up)
    ensures
      var ev := up.events[Boundary(codec, up.events)];
      var s := Consume(codec, Run(codec, Before(codec, up)).state, ev);
      var reason := FinishReasonOf(ev).value;
      && s.state.finished && ViewOf(s.state) == Reported(FinalUsage(codec, up))
      && s.result == Ok(CallsOut(Calls(codec, up))
        + [FinishOut(reason, Reported(FinalUsage(codec, up)).usage, reason == LengthReason)])
  {
    var ev := up.events[Boundary(codec, up.events)];
    QuietRun(codec, Before(codec, up));
    FinishStepEffect(Run(codec, Before(codec, up)).state, ev, FinishReasonOf(ev).value);
  }

  // Whether the calls allow the reason; a tool_calls finish needs at least one.
  predicate Refusable(reason: FinishReason, calls: seq<ToolCall>) {
    reason == ToolCallsReason && calls == []
  }

  // The finish frames are written, or refused, after some content.
  predicate FinishedWriting(s: Stream, deltas: seq<Delta>, calls: seq<ToolCall>, reason: FinishReason, usage: Usage,
        includeUsage: bool)
  {
    if Refusable(reason, calls) then
      !s.done && s.error == Some(NoValidToolCalls) && s.out == ContentFrames(deltas)
    else
      var outcome := Finished(calls, ResolveFinishReason(reason, calls != [], reason == LengthReason), usage);
      s.done && s.error.None? && s.out == Render(deltas, outcome, includeUsage)
  }

  lemma FinishAfterContent(norm: Norm, deltas: seq<Delta>, calls: seq<ToolCall>, reason: FinishReason, usage: Usage,
        includeUsage: bool)
    ensures
      var s := FinishStream(
        Writing(norm, deltas).(collected := calls), reason, usage, reason == LengthReason, includeUsage);
      s.norm == norm && FinishedWriting(s, deltas, calls, reason, usage, includeUsage)
  {
  }

  lemma StreamNormsSnoc(codec: Codec, s: Stream, es: seq<NormEvent>, e: NormEvent, includeUsage: bool)
    ensures
      var before := StreamNorms(codec, s, es, includeUsage);
      StreamNorms(codec, s, es + [e], includeUsage) ==
        if before.error.Some? then before else StreamNorm(codec, before, e, includeUsage)
  {
    assert (es + [e])[..|es|] == es;
  }

  // The writer takes the normalizer's answer to the finish event.
  lemma StreamFinish(codec: Codec, norm: Norm, deltas: seq<Delta>, calls: seq<ToolCall>, reason: FinishReason,
        usage: Usage, includeUsage: bool)
    requires AllValid(codec, calls) && DistinctIds(calls)
    ensures
      var s := StreamNorms(codec, Writing(norm, deltas),
        CallsOut(calls) + [FinishOut(reason, usage, reason == LengthReason)], includeUsage);
      s.norm == norm && FinishedWriting(s, deltas, calls, reason, usage, includeUsage)
  {
    hide FinishedWriting, FinishStream, StreamNorms, CallsOut, ContentFrames, AllValid, DistinctIds, ToolCallProblem;
    StreamNormsSnoc(codec, Writing(norm, deltas), CallsOut(calls), FinishOut(reason, usage, reason == LengthReason),
      includeUsage);
    StreamCalls(codec, Writing(norm, deltas), calls, includeUsage);
    FinishAfterContent(norm, deltas, calls, reason, usage, includeUsage);
  }

  lemma OutcomeReached(codec: Codec, up: Upstream)
    requires Reached(codec, up)
    ensures
      var reason := FinishReasonOf(up.events[Boundary(codec, up.events)]).value;
      var calls := Calls(codec, up);
      OutcomeOf(codec, up) ==
        if Refusable(reason, calls) then Broke(StreamError(FromEvent(NoValidToolCalls)))
        else Finished(calls, ResolveFinishReason(reason, calls != [], reason == LengthReason),
          Reported(FinalUsage(codec, up)).usage)
  {
  }

  // The writer right after the finish event.
  lemma StreamAtFinish(codec: Codec, up: Upstream, includeUsage: bool)
    requires Reached(codec, up)
    ensures
      var s := StreamEvents(codec, UpToBoundary(codec, up), includeUsage);
      var deltas := Deltas(Before(codec, up));
      && s.norm.finished && ViewOf(s.norm) == Reported(FinalUsage(codec, up))
      && (match OutcomeOf(codec, up)
          case Finished(_, _, _) => s.done && s.error.None?
            && s.out == Render(deltas, OutcomeOf(codec, up), includeUsage)
          case Broke(_) => !s.done && s.error == Some(NoValidToolCalls) && s.out == ContentFrames(deltas))
  {
    hide NormalizeFinishReason, Boundary, Consume;
    var pre, b := Before(codec, up), Boundary(codec, up.events);
    BoundaryEvent(codec, up);
    StreamQuiet(codec, pre, includeUsage);
    NormAtFinish(codec, up);
    CallsAreGood(codec, up);
    OutcomeReached(codec, up);
    var step := Consume(codec, Run(codec, pre).state, up.events[b]);
    StreamFinish(codec, step.state, Deltas(pre), Calls(codec, up), FinishReasonOf(up.events[b]).value,
      Reported(FinalUsage(codec, up)).usage, includeUsage);
  }

  predicate HasClosedForm(codec: Codec, up: Upstream, includeUsage: bool) {
    StreamRun(codec, up, includeUsage) == Streamed(
      Render(Deltas(Before(codec, up)), OutcomeOf(codec, up), includeUsage),
      CountsOfView(Reported(FinalUsage(codec, up))))
  }

  lemma ClosedFormReached(codec: Codec, up: Upstream, includeUsage: bool)
    requires Reached(codec, up)
    ensures HasClosedForm(codec, up, includeUsage)
  {
    hide Boundary, NormalizeFinishReason, StreamEvents, Reported, FinalUsage;
    BoundaryEvent(codec, up);
    StreamAtFinish(codec, up, includeUsage);
    OutcomeReached(codec, up);
    if OutcomeOf(codec, up).Finished? {
      StreamTail(codec, UpToBoundary(codec, up), AfterFinish(codec, up), includeUsage);
    } else {
      StreamEventsStop(codec, up.events, Boundary(codec, up.events) + 1, includeUsage);
    }
  }

  lemma ClosedFormBroken(codec: Codec, up: Upstream, includeUsage: bool)
    requires !Reached(codec, up)
    ensures HasClosedForm(codec, up, includeUsage)
  {
    hide Boundary, NormalizeFinishReason, StreamEvents, Reported, FinalUsage, Deltas, ContentFrames, Consume,
      EventProblem;
    var b := Boundary(codec, up.events);
    if b == |up.events| {
      StreamUnfinished(codec, up, includeUsage);
    } else {
      StreamBroken(codec, up, includeUsage);
      StreamEventsStop(codec, up.events, b + 1, includeUsage);
    }
  }

  /** The whole stream, for every upstream run: the content before the end of the turn, then the
  rendering of how the turn came out. Nothing after the end of the turn shows. */
  lemma StreamClosedForm(codec: Codec, up: Upstream, includeUsage: bool)
    ensures HasClosedForm(codec, up, includeUsage)
  {
    if Reached(codec, up) {
      ClosedFormReached(codec, up, includeUsage);
    } else {
      ClosedFormBroken(codec, up, includeUsage);
    }
  }

  lemma StreamUnfinished(codec: Codec, up: Upstream, includeUsage: bool)
    requires Boundary(codec, up.events) == |up.events|
    ensures
      var s := StreamEvents(codec, up.events, includeUsage);
      && !s.done && s.error.None? && s.out == ContentFrames(Deltas(Before(codec, up)))
      && ViewOf(s.norm) == Reported(FinalUsage(codec, up)) && !s.norm.finished
  {
    assert Before(codec, up) == up.events;
    StreamQuiet(codec, up.events, includeUsage);
    QuietRun(codec, up.events);
  }

  lemma StreamBroken(codec: Codec, up: Upstream, includeUsage: bool)
    requires Boundary(codec, up.events) < |up.events| && !Reached(codec, up)
    ensures
      var s := StreamEvents(codec, UpToBoundary(codec, up), includeUsage);
      && !s.done && s.error.Some? && s.out == ContentFrames(Deltas(Before(codec, up)))
      && OutcomeOf(codec, up) == Broke(StreamError(FromEvent(s.error.value)))
      && ViewOf(s.norm) == Reported(FinalUsage(codec, up))
  {
    hide NormalizeFinishReason, Boundary, Consume, OutcomeOf;
    var pre := Before(codec, up);
    BoundaryEvent(codec, up);
    StreamQuiet(codec, pre, includeUsage);
    QuietRun(codec, pre);
    BrokenStep(codec, up);
  }

  lemma BoundaryStops(codec: Codec, up: Upstream)
    requires Boundary(codec, up.events) < |up.events|
    ensures AllQuiet(codec, Before(codec, up)) && !Quiet(codec, up.events[Boundary(codec, up.events)])
  {
  }

  // A boundary event that is no acceptable finish event is an error, and changes nothing else.
  lemma BrokenStep(codec: Codec, up: Upstream)
    requires Boundary(codec, up.events) < |up.events| && !Reached(codec, up)
    ensures
      var n := Run(codec, Before(codec, up)).state;
      var s := Consume(codec, n, up.events[Boundary(codec, up.events)]);
      && s.state == n && s.result.Err?
      && OutcomeOf(codec, up) == Broke(StreamError(FromEvent(s.result.error)))
  {
    hide NormalizeFinishReason, ToolCallFromEvent, Boundary, Run, Deltas, CallsIn, FirstPerId, LastStepUsage;
    BoundaryStops(codec, up);
    QuietRun(codec, Before(codec, up));
    var ev := up.events[Boundary(codec, up.events)];
    if !ev.kind.FinishEvent? {
      ConsumeProblem(codec, Run(codec, Before(codec, up)).state, ev);
    }
  }

  // ----------------------------------------------------------- the frame grammar

  predicate IsContentFrame(f: Frame, first: bool) {
    && f.Chunk? && f.calls == [] && f.finish.None?
    && (f.content == "" <==> f.reasoning != "")
    && (f.role <==> first)
  }

  predicate IsCallFrame(f: Frame, index: nat, first: bool) {
    && f.Chunk? && f.content == "" && f.reasoning == "" && f.finish.None?
    && |f.calls| == 1 && f.calls[0].index == index
    && (f.role <==> first)
  }

  predicate IsFinishFrame(f: Frame, calls: nat) {
    && f.Chunk? && !f.role && f.content == "" && f.reasoning == "" && f.calls == []
    && f.finish.Some? && (f.finish.value == ToolCallsReason ==> calls >= 1)
  }

  // The end of the stream after some content and `calls` tool-call frames.
  predicate IsClosing(rest: seq<Frame>, calls: nat, includeUsage: bool) {
    || (calls == 0 && |rest| == 2 && rest[0].ErrorFrame? && rest[1].DoneFrame?)
    || (!includeUsage && |rest| == 2 && IsFinishFrame(rest[0], calls) && rest[1].DoneFrame?)
    || (includeUsage && |rest| == 3 && IsFinishFrame(rest[0], calls) && rest[1].UsageFrame? && rest[2].DoneFrame?)
  }

  // `n` content frames, `m` tool-call frames numbered from 0, and a closing; the role is on the
  // first content or tool-call frame and nowhere else.
  predicate HasShape(out: seq<Frame>, n: nat, m: nat, includeUsage: bool) {
    && n + m <= |out|
    && (forall i :: 0 <= i < n ==> IsContentFrame(out[i], i == 0))
    && (forall i :: n <= i < n + m ==> IsCallFrame(out[i], i - n, i == 0))
    && IsClosing(out[n + m..], m, includeUsage)
  }

  lemma {:induction false} DeltasNotEmpty(events: seq<Event>)
    ensures forall i :: 0 <= i < |Deltas(events)| ==> Deltas(events)[i].text != ""
  {
    if events != [] {
      DeltasNotEmpty(events[..|events| - 1]);
    }
  }

  lemma FinishIsClosing(codec: Codec, up: Upstream, includeUsage: bool)
    requires OutcomeOf(codec, up).Finished?
    ensures
      var o := OutcomeOf(codec, up);
      IsClosing(FinishFrames(o.reason, o.usage, includeUsage), |o.calls|, includeUsage)
  {
  }

  lemma RenderedShape(content: seq<Frame>, calls: seq<Frame>, closing: seq<Frame>, includeUsage: bool)
    requires forall i :: 0 <= i < |content| ==> IsContentFrame(content[i], i == 0)
    requires forall j :: 0 <= j < |calls| ==> IsCallFrame(calls[j], j, |content| + j == 0)
    requires IsClosing(closing, |calls|, includeUsage)
    ensures HasShape(content + (calls + closing), |content|, |calls|, includeUsage)
  {
    var out := content + (calls + closing);
    assert out[|content| + |calls|..] == closing;
    forall i | |content| <= i < |content| + |calls| ensures IsCallFrame(out[i], i - |content|, i == 0) {
      assert out[i] == calls[i - |content|];
    }
  }

  /** For every upstream run whatsoever the output follows the frame grammar: content frames,
  then either tool-call frames, one finish frame, the usage frame if asked for and [DONE], or one
  error frame and [DONE]. Tool-call frames come only with a finish, a tool_calls finish only with
  tool-call frames. */
  lemma StreamGrammar(codec: Codec, up: Upstream, includeUsage: bool)
    ensures
      var out := StreamRun(codec, up, includeUsage).out;
      var o := OutcomeOf(codec, up);
      HasShape(out, |Deltas(Before(codec, up))|, if o.Finished? then |o.calls| else 0, includeUsage)
  {
    StreamClosedForm(codec, up, includeUsage);
    var deltas := Deltas(Before(codec, up));
    DeltasNotEmpty(Before(codec, up));
    match OutcomeOf(codec, up) {
      case Finished(calls, reason, usage) =>
        FinishIsClosing(codec, up, includeUsage);
        RenderedShape(ContentFrames(deltas), CallFrames(deltas == [], calls),
          FinishFrames(reason, usage, includeUsage), includeUsage);
      case Broke(failure) =>
        var closing := [ErrorFrame(failure), DoneFrame];
        assert [] + closing == closing;
        RenderedShape(ContentFrames(deltas), [], closing, includeUsage);
    }
  }

  // ------------------------------------------------------ what a client receives

  /** What an OpenAI client accumulates from the frames. */
  datatype Client = Client(
    content: string, reasoning: string, calls: seq<StreamToolCall>,
    finish: Option<FinishReason>, usage: Option<Usage>, failure: Option<Failure>)

  const NOTHING: Client := Client("", "", [], None, None, None)

  function Receive(c: Client, f: Frame): Client {
    match f
    case Chunk(_, content, reasoning, calls, finish) =>
      c.(content := c.content + content, reasoning := c.reasoning + reasoning, calls := c.calls + calls,
         finish := if finish.Some? then finish else c.finish)
    case UsageFrame(usage) => c.(usage := Some(usage))
    case ErrorFrame(failure) => c.(failure := Some(failure))
    case DoneFrame => c
  }

  function ReceiveAll(c: Client, frames: seq<Frame>): Client {
    if frames == [] then c
    else
      var n := |frames| - 1;
      Receive(ReceiveAll(c, frames[..n]), frames[n])
  }

  function Indexed(calls: seq<ToolCall>): (indexed: seq<StreamToolCall>)
    ensures |indexed| == |calls|
    ensures forall i :: 0 <= i < |calls| ==>
      indexed[i] == StreamToolCall(i, calls[i].id, calls[i].typ, calls[i].name, calls[i].arguments)
  {
    if calls == [] then []
    else
      var n := |calls| - 1;
      Indexed(calls[..n]) + [StreamToolCall(n, calls[n].id, calls[n].typ, calls[n].name, calls[n].arguments)]
  }

  lemma {:induction false} ReceiveConcat(c: Client, a: seq<Frame>, b: seq<Frame>)
    ensures ReceiveAll(c, a + b) == ReceiveAll(ReceiveAll(c, a), b)
  {
    if b == [] {
      assert a + b == a;
    } else {
      var n := |b| - 1;
      ReceiveConcat(c, a, b[..n]);
      SplitLast(a, b);
    }
  }

  lemma ReceiveDelta(c: Client, role: bool, d: Delta)
    ensures Receive(c, ContentFrame(role, d)) == c.(
      content := c.content + (if d.reasoning then "" else d.text),
      reasoning := c.reasoning + (if d.reasoning then d.text else ""))
  {
    assert c.calls + [] == c.calls;
  }

  lemma {:induction false} ReceiveContent(c: Client, deltas: seq<Delta>)
    ensures ReceiveAll(c, ContentFrames(deltas)) ==
      c.(content := c.content + Written(deltas, false), reasoning := c.reasoning + Written(deltas, true))
  {
    hide Receive, ContentFrame;
    if deltas != [] {
      var n := |deltas| - 1;
      ReceiveContent(c, deltas[..n]);
      assert ContentFrames(deltas)[..n] == ContentFrames(deltas[..n]);
      ReceiveDelta(ReceiveAll(c, ContentFrames(deltas[..n])), n == 0, deltas[n]);
      Associate(c.content, Written(deltas[..n], false), if deltas[n].reasoning then "" else deltas[n].text);
      Associate(c.reasoning, Written(deltas[..n], true), if deltas[n].reasoning then deltas[n].text else "");
    }
  }

  lemma {:induction false} ReceiveCalls(c: Client, firstText: bool, calls: seq<ToolCall>)
    ensures ReceiveAll(c, CallFrames(firstText, calls)) == c.(calls := c.calls + Indexed(calls))
  {
    if calls == [] {
      assert c.calls + Indexed(calls) == c.calls;
    } else {
      var n := |calls| - 1;
      ReceiveCalls(c, firstText, calls[..n]);
      assert CallFrames(firstText, calls)[..n] == CallFrames(firstText, calls[..n]);
      assert c.calls + Indexed(calls[..n]) + [Indexed(calls)[n]] == c.calls + Indexed(calls);
      assert c.content + "" == c.content && c.reasoning + "" == c.reasoning;
    }
  }

  lemma ReceiveFinish(c: Client, reason: FinishReason, usage: Usage, includeUsage: bool)
    ensures ReceiveAll(c, FinishFrames(reason, usage, includeUsage)) ==
      c.(finish := Some(reason), usage := if includeUsage then Some(usage) else c.usage)
  {
    var first := Chunk(false, "", "", [], Some(reason));
    assert Receive(c, first) == c.(finish := Some(reason));
    ReceiveOne(c, first);
    if includeUsage {
      ReceiveConcat(c, [first], [UsageFrame(usage)]);
      ReceiveOne(Receive(c, first), UsageFrame(usage));
      ReceiveConcat(c, [first] + [UsageFrame(usage)], [DoneFrame]);
      ReceiveOne(ReceiveAll(c, [first] + [UsageFrame(usage)]), DoneFrame);
    } else {
      assert [first] + [] == [first];
      ReceiveConcat(c, [first], [DoneFrame]);
      ReceiveOne(Receive(c, first), DoneFrame);
    }
  }

  lemma ReceiveOne(c: Client, f: Frame)
    ensures ReceiveAll(c, [f]) == Receive(c, f)
  {
    assert [f][..0] == [];
  }

  /** What the client has in the end. */
  function Received(codec: Codec, up: Upstream, includeUsage: bool): Client {
    var deltas := Deltas(Before(codec, up));
    var content := NOTHING.(content := Written(deltas, false), reasoning := Written(deltas, true));
    match OutcomeOf(codec, up)
    case Finished(calls, reason, usage) =>
      content.(calls := Indexed(calls), finish := Some(reason), usage := if includeUsage then Some(usage) else None)
    case Broke(failure) => content.(failure := Some(failure))
  }

  lemma ReceiveRendered(deltas: seq<Delta>, outcome: Outcome, includeUsage: bool)
    ensures
      var c := NOTHING.(content := Written(deltas, false), reasoning := Written(deltas, true));
      ReceiveAll(NOTHING, Render(deltas, outcome, includeUsage)) ==
        match outcome
        case Finished(calls, reason, usage) =>
          c.(calls := Indexed(calls), finish := Some(reason), usage := if includeUsage then Some(usage) else None)
        case Broke(failure) => c.(failure := Some(failure))
  {
    var c := NOTHING.(content := Written(deltas, false), reasoning := Written(deltas, true));
    ReceiveContent(NOTHING, deltas);
    assert "" + Written(deltas, false) == Written(deltas, false) && "" + Written(deltas, true) == Written(deltas, true);
    match outcome {
      case Finished(calls, reason, usage) =>
        var x, y := CallFrames(deltas == [], calls), FinishFrames(reason, usage, includeUsage);
        ReceiveConcat(NOTHING, ContentFrames(deltas), x + y);
        ReceiveTurn(c, deltas == [], calls, reason, usage, includeUsage);
      case Broke(failure) =>
        ReceiveConcat(NOTHING, ContentFrames(deltas), [ErrorFrame(failure), DoneFrame]);
        ReceiveFailure(c, failure);
    }
  }

  lemma ReceiveTurn(c: Client, firstText: bool, calls: seq<ToolCall>, reason: FinishReason, usage: Usage,
        includeUsage: bool)
    requires c.calls == []
    ensures ReceiveAll(c, CallFrames(firstText, calls) + FinishFrames(reason, usage, includeUsage)) ==
      c.(calls := Indexed(calls), finish := Some(reason), usage := if includeUsage then Some(usage) else c.usage)
  {
    var x := CallFrames(firstText, calls);
    ReceiveConcat(c, x, FinishFrames(reason, usage, includeUsage));
    ReceiveCalls(c, firstText, calls);
    assert [] + Indexed(calls) == Indexed(calls);
    ReceiveFinish(ReceiveAll(c, x), reason, usage, includeUsage);
  }

  lemma ReceiveFailure(c: Client, failure: Failure)
    ensures ReceiveAll(c, [ErrorFrame(failure), DoneFrame]) == c.(failure := Some(failure))
  {
    ReceiveConcat(c, [ErrorFrame(failure)], [DoneFrame]);
    ReceiveOne(c, ErrorFrame(failure));
    ReceiveOne(Receive(c, ErrorFrame(failure)), DoneFrame);
    assert [ErrorFrame(failure)] + [DoneFrame] == [ErrorFrame(failure), DoneFrame];
  }

  /** What a client accumulates from the stream of any upstream run. */
  lemma ClientReceives(codec: Codec, up: Upstream, includeUsage: bool)
    ensures ReceiveAll(NOTHING, StreamRun(codec, up, includeUsage).out) == Received(codec, up, includeUsage)
  {
    hide OutcomeOf, Before;
    StreamClosedForm(codec, up, includeUsage);
    ReceiveRendered(Deltas(Before(codec, up)), OutcomeOf(codec, up), includeUsage);
  }

  lemma FinishedCalls(codec: Codec, up: Upstream)
    ensures OutcomeOf(codec, up).Finished? ==> Reached(codec, up) && OutcomeOf(codec, up).calls == Calls(codec, up)
  {
  }

  /** The calls a client is given are the first call of each id among the tool-call events before
  the finish event, in that order, all valid and with distinct ids; without a finish there are
  none, and calls that come after the finish event are never given. */
  lemma EmittedCalls(codec: Codec, up: Upstream, includeUsage: bool)
    ensures
      var calls := FirstPerId(CallsIn(codec, Before(codec, up)));
      && ReceiveAll(NOTHING, StreamRun(codec, up, includeUsage).out).calls
        == (if OutcomeOf(codec, up).Finished? then Indexed(calls) else [])
      && DistinctIds(calls) && AllValid(codec, calls)
      && (forall id :: HasId(calls, id) <==> HasId(CallsIn(codec, Before(codec, up)), id))
  {
    hide OutcomeOf, Before, CallsIn, FirstPerId, StreamRun, ReceiveAll;
    FinishedCalls(codec, up);
    ClientReceives(codec, up, includeUsage);
    CallsAreGood(codec, up);
    FirstPerIdMeaning(CallsIn(codec, Before(codec, up)));
  }

  /** The finish reason a client gets: length exactly when the upstream ran out of length, whatever
  calls there are; a content filter likewise; else tool_calls exactly when calls were given. */
  lemma FinishReasonMeaning(codec: Codec, up: Upstream, includeUsage: bool)
    requires OutcomeOf(codec, up).Finished?
    ensures
      var c := ReceiveAll(NOTHING, StreamRun(codec, up, includeUsage).out);
      var upstream := FinishReasonOf(up.events[Boundary(codec, up.events)]).value;
      && c.finish.Some?
      && (c.finish.value == LengthReason <==> upstream == LengthReason)
      && (c.finish.value == ContentFilterReason <==> upstream == ContentFilterReason)
      && (c.finish.value == ToolCallsReason
        <==> upstream != LengthReason && upstream != ContentFilterReason && c.calls != [])
      && (c.finish.value == StopReason <==> upstream == StopReason && c.calls == [])
  {
    hide NormalizeFinishReason, Boundary, StreamRun, ReceiveAll, CallsIn, FirstPerId;
    FinishedCalls(codec, up);
    OutcomeReached(codec, up);
    ClientReceives(codec, up, includeUsage);
  }

  // ------------------------------------------------ after the end nothing counts

  // Two upstreams with the same events up to and including the one that ends the turn.
  lemma {:induction false} SameBoundary(codec: Codec, head: seq<Event>, tail: seq<Event>)
    requires Boundary(codec, head) < |head|
    ensures Boundary(codec, head + tail) == Boundary(codec, head)
    decreases |head|
  {
    if Quiet(codec, head[0]) {
      assert (head + tail)[1..] == head[1..] + tail;
      SameBoundary(codec, head[1..], tail);
    }
  }

  lemma SameTurn(codec: Codec, a: Upstream, b: Upstream)
    requires a.events <= b.events && Boundary(codec, a.events) < |a.events|
    ensures Before(codec, a) == Before(codec, b) && OutcomeOf(codec, a) == OutcomeOf(codec, b)
    ensures FinalUsage(codec, a) == FinalUsage(codec, b)
  {
    hide Boundary, NormalizeFinishReason, ToolCallFromEvent, CallsIn, LastStepUsage, FirstPerId;
    assert b.events == a.events + b.events[|a.events|..];
    SameBoundary(codec, a.events, b.events[|a.events|..]);
  }

  /** Usage and everything else is frozen at the end of the turn: whatever events follow, and
  however the body ends, neither the frames nor the recorded counts change, so there is no
  second finish either. */
  lemma NothingAfterTheTurnCounts(codec: Codec, a: Upstream, b: Upstream, includeUsage: bool)
    requires a.events <= b.events && Boundary(codec, a.events) < |a.events|
    ensures StreamRun(codec, a, includeUsage) == StreamRun(codec, b, includeUsage)
  {
    hide Boundary, OutcomeOf, Before, FinalUsage, StreamRun, Render;
    SameTurn(codec, a, b);
    StreamClosedForm(codec, a, includeUsage);
    StreamClosedForm(codec, b, includeUsage);
  }

  /** Usage is last-writer: the counts recorded, and the usage frame if it is asked for, come from
  the finish event's own total, or else from the last finish-step before it, or else are zero. */
  lemma UsageIsLastWriter(codec: Codec, up: Upstream, includeUsage: bool)
    ensures
      var view := Reported(FinalUsage(codec, up));
      var s := StreamRun(codec, up, includeUsage);
      && s.recorded == CountsOfView(view)
      && ReceiveAll(NOTHING, s.out).usage
        == (if includeUsage && OutcomeOf(codec, up).Finished? then Some(view.usage) else None)
  {
    hide Boundary, Before, FinalUsage, StreamRun, Render, NormalizeFinishReason, Reported;
    StreamClosedForm(codec, up, includeUsage);
    ClientReceives(codec, up, includeUsage);
  }

  // ------------------------------------------------------ provisional events again

  lemma StreamNormIgnoresNorm(codec: Codec, s: Stream, norm: Norm, e: NormEvent, includeUsage: bool)
    ensures StreamNorm(codec, s.(norm := norm), e, includeUsage) == StreamNorm(codec, s, e, includeUsage).(norm := norm)
  {
    hide ToolCallProblem, CallFrames, FinishFrames, AddCall;
  }

  lemma {:induction false} StreamNormsIgnoreNorm(codec: Codec, s: Stream, norm: Norm, es: seq<NormEvent>,
        includeUsage: bool)
    ensures StreamNorms(codec, s.(norm := norm), es, includeUsage)
      == StreamNorms(codec, s, es, includeUsage).(norm := norm)
  {
    hide StreamNorm;
    if es != [] {
      var n := |es| - 1;
      StreamNormsIgnoreNorm(codec, s, norm, es[..n], includeUsage);
      StreamNormIgnoresNorm(codec, StreamNorms(codec, s, es[..n], includeUsage), norm, es[n], includeUsage);
    }
  }

  lemma {:induction false} CollectNormsIgnoreNorm(codec: Codec, c: Collect, norm: Norm, es: seq<NormEvent>)
    ensures CollectNorms(codec, c.(norm := norm), es) == CollectNorms(codec, c, es).(norm := norm)
  {
    if es != [] {
      CollectNormsIgnoreNorm(codec, c, norm, es[..|es| - 1]);
    }
  }

  predicate StreamAlike(s: Stream, t: Stream) {
    SameButProvisional(s.norm, t.norm) && s == t.(norm := s.norm)
  }

  predicate CollectAlike(c: Collect, d: Collect) {
    SameButProvisional(c.norm, d.norm) && c == d.(norm := c.norm)
  }

  lemma StreamEventAlike(codec: Codec, s: Stream, t: Stream, ev: Event, includeUsage: bool)
    requires StreamAlike(s, t) && s.error.None?
    ensures Provisional(ev) ==> StreamAlike(StreamEvent(codec, s, ev, includeUsage), t)
    ensures !Provisional(ev)
      ==> StreamAlike(StreamEvent(codec, s, ev, includeUsage), StreamEvent(codec, t, ev, includeUsage))
  {
    hide Consume, StreamNorms, Provisional;
    if Provisional(ev) {
      ProvisionalEventsAreSilent(codec, s.norm, ev);
      assert StreamNorms(codec, s.(norm := Consume(codec, s.norm, ev).state), [], includeUsage)
        == s.(norm := Consume(codec, s.norm, ev).state) by {
        NoNorms(codec, s.(norm := Consume(codec, s.norm, ev).state), includeUsage);
      }
    } else {
      ConsumeIgnoresBuffers(codec, s.norm, t.norm, ev);
      var x, y := Consume(codec, s.norm, ev), Consume(codec, t.norm, ev);
      if x.result.Ok? {
        StreamNormsIgnoreNorm(codec, t, x.state, x.result.value, includeUsage);
        StreamNormsIgnoreNorm(codec, t, y.state, x.result.value, includeUsage);
        assert s.(norm := x.state) == t.(norm := x.state);
      }
    }
  }

  lemma NoNorms(codec: Codec, s: Stream, includeUsage: bool)
    ensures StreamNorms(codec, s, [], includeUsage) == s
  {
  }

  lemma CollectEventAlike(codec: Codec, c: Collect, d: Collect, ev: Event)
    requires CollectAlike(c, d) && c.error.None?
    ensures Provisional(ev) ==> CollectAlike(CollectEvent(codec, c, ev), d)
    ensures !Provisional(ev) ==> CollectAlike(CollectEvent(codec, c, ev), CollectEvent(codec, d, ev))
  {
    hide Consume, Provisional;
    if Provisional(ev) {
      ProvisionalEventsAreSilent(codec, c.norm, ev);
    } else {
      ConsumeIgnoresBuffers(codec, c.norm, d.norm, ev);
      var x, y := Consume(codec, c.norm, ev), Consume(codec, d.norm, ev);
      if x.result.Ok? {
        CollectNormsIgnoreNorm(codec, d, x.state, x.result.value);
        CollectNormsIgnoreNorm(codec, d, y.state, x.result.value);
        assert c.(norm := x.state) == d.(norm := x.state);
      }
    }
  }

  lemma {:induction false} EraseLast(events: seq<Event>)
    requires events != []
    ensures
      var n := |events| - 1;
      && (Provisional(events[n]) ==> Erase(events) == Erase(events[..n]))
      && (!Provisional(events[n]) ==>
        && Erase(events) != [] && Erase(events)[|Erase(events)| - 1] == events[n]
        && Erase(events)[..|Erase(events)| - 1] == Erase(events[..n]))
  {
  }

  lemma {:induction false} StreamErase(codec: Codec, events: seq<Event>, includeUsage: bool)
    ensures StreamAlike(StreamEvents(codec, events, includeUsage), StreamEvents(codec, Erase(events), includeUsage))
  {
    if events != [] {
      hide Erase, Provisional, StreamEvent, SameButProvisional;
      var n := |events| - 1;
      StreamErase(codec, events[..n], includeUsage);
      EraseLast(events);
      var s, t := StreamEvents(codec, events[..n], includeUsage), StreamEvents(codec, Erase(events[..n]), includeUsage);
      if s.error.None? {
        StreamEventAlike(codec, s, t, events[n], includeUsage);
      }
    }
  }

  lemma {:induction false} CollectErase(codec: Codec, events: seq<Event>)
    ensures CollectAlike(CollectEvents(codec, events), CollectEvents(codec, Erase(events)))
  {
    if events != [] {
      hide Erase, Provisional, CollectEvent;
      var n := |events| - 1;
      CollectErase(codec, events[..n]);
      EraseLast(events);
      var c, d := CollectEvents(codec, events[..n]), CollectEvents(codec, Erase(events[..n]));
      if c.error.None? {
        CollectEventAlike(codec, c, d, events[n]);
      }
    }
  }

  /** Provisional events never reach a client: without them both handlers send the same bytes and
  record the same counts. */
  lemma ProvisionalEventsNeverShow(codec: Codec, up: Upstream, includeUsage: bool)
    ensures
      var erased := up.(events := Erase(up.events));
      && StreamRun(codec, up, includeUsage) == StreamRun(codec, erased, includeUsage)
      && CollectRun(codec, up) == CollectRun(codec, erased)
  {
    hide Erase, StreamEvents, CollectEvents;
    StreamErase(codec, up.events, includeUsage);
    CollectErase(codec, up.events);
  }
}
