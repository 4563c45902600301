/** What one upstream response means, read off its events directly, and the proof that both
handlers compute it. Nothing here goes through the state machines: an event list is cut at its
first finish event or failing event, and everything is a function of what lies before it. */
module Outcomes {
  import opened GoStrings
  import opened Events
  import opened Normalizer
  import opened Handlers

  // ------------------------------------------------------ reading an event list

  /** Why an event other than the first finish event is a protocol error. */
  function EventProblem(codec: Codec, ev: Event): Option<EventError> {
    match ev.kind
    case ToolCallEvent =>
      (match ToolCallFromEvent(codec, ev)
       case Err(e) => Some(e)
       case Ok(_) => None)
    case ToolInputStart => if CallIdOf(ev) == "" then Some(MissingToolInputId) else None
    case ToolInputDelta => if CallIdOf(ev) == "" then Some(MissingToolInputId) else None
    case ErrorEvent => Some(UpstreamError(ev.error))
    case _ => None
  }

  predicate Quiet(codec: Codec, ev: Event) {
    !ev.kind.FinishEvent? && EventProblem(codec, ev).None?
  }

  predicate AllQuiet(codec: Codec, events: seq<Event>) {
    forall i :: 0 <= i < |events| ==> Quiet(codec, events[i])
  }

  /** Position of the first event that ends the turn, well or badly. */
  function Boundary(codec: Codec, events: seq<Event>): (b: nat)
    ensures b <= |events|
    ensures forall i :: 0 <= i < b ==> Quiet(codec, events[i])
    ensures b < |events| ==> !Quiet(codec, events[b])
  {
    if events == [] || !Quiet(codec, events[0]) then 0 else 1 + Boundary(codec, events[1..])
  }

  datatype Delta = Delta(reasoning: bool, text: string)

  // The text of an event is its text member, or its delta member if the text is empty.
  function DeltaOf(ev: Event): seq<Delta> {
    var piece := if ev.text == "" then ev.delta else ev.text;
    if piece == "" then []
    else if ev.kind.TextDelta? then [Delta(false, piece)]
    else if ev.kind.ReasoningDelta? then [Delta(true, piece)]
    else []
  }

  /** The pieces of content, in order. */
  function Deltas(events: seq<Event>): seq<Delta> {
    if events == [] then []
    else
      var n := |events| - 1;
      Deltas(events[..n]) + DeltaOf(events[n])
  }

  function Written(deltas: seq<Delta>, reasoning: bool): string {
    if deltas == [] then ""
    else
      var n := |deltas| - 1;
      Written(deltas[..n], reasoning) + (if deltas[n].reasoning == reasoning then deltas[n].text else "")
  }

  /** The calls of the tool-call events, in order. */
  function CallsIn(codec: Codec, events: seq<Event>): seq<ToolCall> {
    if events == [] then []
    else
      var n := |events| - 1;
      CallsIn(codec, events[..n]) +
      if events[n].kind.ToolCallEvent? && ToolCallFromEvent(codec, events[n]).Ok?
      then [ToolCallFromEvent(codec, events[n]).value] else []
  }

  /** The usage of the last finish-step event that has one. */
  function LastStepUsage(events: seq<Event>): Option<CCUsage> {
    if events == [] then None
    else
      var n := |events| - 1;
      if events[n].kind.FinishStep? && events[n].usage.Some? then events[n].usage else LastStepUsage(events[..n])
  }

  datatype UsageView = UsageView(usage: Usage, cacheRead: int, cacheWrite: int)

  /** How one upstream usage record is reported; no record is reported as all zeros. */
  function Reported(u: Option<CCUsage>): UsageView {
    match u
    case None => UsageView(Usage(0, 0, 0, None), 0, 0)
    case Some(CCUsage(input, output, total, details)) =>
      var sum := if total > 0 then total else input + output;
      match details
      case None => UsageView(Usage(input, output, sum, None), 0, 0)
      case Some(TokenDetails(read, write)) => UsageView(Usage(input, output, sum, Some(read)), read, write)
  }

  function ViewOf(n: Norm): UsageView {
    UsageView(n.usage, n.cacheRead, n.cacheWrite)
  }

  function CountsOfView(v: UsageView): Counts {
    Counts(v.usage.prompt, v.usage.completion, v.cacheRead, v.cacheWrite)
  }

  /** How a turn comes out. */
  datatype Outcome = Finished(calls: seq<ToolCall>, reason: FinishReason, usage: Usage) | Broke(failure: Failure)

  // The events before the boundary, and after it.
  function Before(codec: Codec, up: Upstream): seq<Event> {
    up.events[..Boundary(codec, up.events)]
  }

  function AfterFinish(codec: Codec, up: Upstream): seq<Event> {
    var b := Boundary(codec, up.events);
    if b < |up.events| then up.events[b + 1..] else []
  }

  // The turn reaches a finish event whose reason is known.
  predicate Reached(codec: Codec, up: Upstream) {
    var b := Boundary(codec, up.events);
    b < |up.events| && up.events[b].kind.FinishEvent? && FinishReasonOf(up.events[b]).Ok?
  }

  function Calls(codec: Codec, up: Upstream): seq<ToolCall> {
    FirstPerId(CallsIn(codec, Before(codec, up)))
  }

  /** The one usage record that counts: the finish event's own, or else the last one before it. */
  function FinalUsage(codec: Codec, up: Upstream): Option<CCUsage> {
    var own := if Reached(codec, up) then up.events[Boundary(codec, up.events)].totalUsage else None;
    if own.Some? then own else LastStepUsage(Before(codec, up))
  }

  function OutcomeOf(codec: Codec, up: Upstream): Outcome {
    var b := Boundary(codec, up.events);
    if b == |up.events| then
      Broke(match up.end
            case EndOfStream => Incomplete(false)
            case DoneMarker => Incomplete(true)
            case Failed(e) => StreamError(FromParse(e)))
    else if EventProblem(codec, up.events[b]).Some?
    then Broke(StreamError(FromEvent(EventProblem(codec, up.events[b]).value)))
    else match FinishReasonOf(up.events[b]) {
      case Err(e) => Broke(StreamError(FromEvent(e)))
      case Ok(reason) =>
        var calls := Calls(codec, up);
        if reason == ToolCallsReason && calls == [] then Broke(StreamError(FromEvent(NoValidToolCalls)))
        else Finished(calls, ResolveFinishReason(reason, calls != [], reason == LengthReason),
                      Reported(FinalUsage(codec, up)).usage)
    }
  }

  // ----------------------------------------------------- the normalizer's part

  lemma ConsumeProblem(codec: Codec, n: Norm, ev: Event)
    requires ev.kind.FinishEvent? ==> n.finished
    ensures
      var r := Consume(codec, n, ev).result;
      match EventProblem(codec, ev) case Some(e) => r == Err(e) case None => r.Ok?
  {
  }

  lemma CallFromEventIsGood(codec: Codec, ev: Event)
    requires ToolCallFromEvent(codec, ev).Ok?
    ensures
      var call := ToolCallFromEvent(codec, ev).value;
      ValidToolCall(codec, call) && call.id != "" && call.source == Authoritative
  {
  }

  lemma {:induction false} CallsInAreGood(codec: Codec, events: seq<Event>)
    ensures Identified(CallsIn(codec, events)) && AllValid(codec, CallsIn(codec, events))
  {
    if events != [] {
      var n := |events| - 1;
      CallsInAreGood(codec, events[..n]);
      if ToolCallFromEvent(codec, events[n]).Ok? {
        CallFromEventIsGood(codec, events[n]);
      }
    }
  }

  // The effect of one quiet event on the parts of the state that anything depends on.
  lemma QuietStep(codec: Codec, n: Norm, ev: Event, calls: seq<ToolCall>)
    requires Quiet(codec, ev) && Identified(calls) && n.kept == FirstPerId(calls)
    ensures
      var m := Consume(codec, n, ev).state;
      && m.finished == n.finished
      && m.kept == FirstPerId(calls +
          if ev.kind.ToolCallEvent? && ToolCallFromEvent(codec, ev).Ok?
          then [ToolCallFromEvent(codec, ev).value]
          else [])
      && ViewOf(m) == (if ev.kind.FinishStep? && ev.usage.Some? && !n.finished then Reported(ev.usage) else ViewOf(n))
  {
    hide FirstPerId, ToolCallFromEvent, AddCall, Identified;
    if ev.kind.ToolCallEvent? {
      CallFromEventIsGood(codec, ev);
      AddCallIsFirstPerId(calls, ToolCallFromEvent(codec, ev).value);
    } else {
      assert calls + [] == calls;
    }
  }

  /** Before the boundary the normalizer holds the first call of each id and the last usage. */
  lemma {:induction false} QuietRun(codec: Codec, events: seq<Event>)
    requires AllQuiet(codec, events)
    ensures
      var t := Run(codec, events);
      && t.error.None? && !t.state.finished
      && t.state.kept == FirstPerId(CallsIn(codec, events))
      && ViewOf(t.state) == Reported(LastStepUsage(events))
  {
    if events != [] {
      var n := |events| - 1;
      QuietRun(codec, events[..n]);
      CallsInAreGood(codec, events[..n]);
      var before := Run(codec, events[..n]).state;
      ConsumeProblem(codec, before, events[n]);
      QuietStep(codec, before, events[n], CallsIn(codec, events[..n]));
    }
  }

  lemma ForgetAllKeepsTheRest(n: Norm, ids: seq<string>)
    ensures ForgetAll(n, ids).kept == n.kept && ViewOf(ForgetAll(n, ids)) == ViewOf(n)
  {
    ForgetAllIsProvisional(n, ids);
  }

  /** What the finish event makes of the state before it. */
  lemma FinishStepEffect(n: Norm, ev: Event, reason: FinishReason)
    ensures
      var s := Finish(n, ev, reason);
      var view := if ev.totalUsage.Some? then Reported(ev.totalUsage) else ViewOf(n);
      && s.state.finished && s.state.kept == n.kept && ViewOf(s.state) == view
      && s.result == Ok(CallsOut(n.kept) + [FinishOut(reason, view.usage, reason == LengthReason)])
  {
    var counted := if ev.totalUsage.Some? then SetUsage(n, ev.totalUsage.value) else n;
    ForgetAllKeepsTheRest(counted, counted.order);
  }

  // After the finish event nothing that is reported changes any more.
  lemma FinishedStep(codec: Codec, n: Norm, ev: Event)
    requires n.finished
    ensures
      var s := Consume(codec, n, ev);
      && s.state.finished && ViewOf(s.state) == ViewOf(n)
      && (s.result.Ok? ==>
        forall i :: 0 <= i < |s.result.value| ==> !s.result.value[i].FinishOut? && !s.result.value[i].CallOut?)
  {
  }

  // What an event that does not end the turn emits.
  function PlainOut(ev: Event): seq<NormEvent> {
    match ev.kind
    case TextDelta => [TextOut(EventText(ev))]
    case ReasoningDelta => [ReasoningOut(EventText(ev))]
    case TextEndEvent => [TextEndOut]
    case ReasoningEndEvent => [ReasoningEndOut]
    case _ => []
  }

  lemma ConsumePlain(codec: Codec, n: Norm, ev: Event)
    requires EventProblem(codec, ev).None? && (ev.kind.FinishEvent? ==> n.finished)
    ensures Consume(codec, n, ev).result == Ok(PlainOut(ev))
  {
  }

  lemma {:induction false} WrittenConcat(a: seq<Delta>, b: seq<Delta>, reasoning: bool)
    ensures Written(a + b, reasoning) == Written(a, reasoning) + Written(b, reasoning)
  {
    if b == [] {
      assert a + b == a;
    } else {
      var n := |b| - 1;
      WrittenConcat(a, b[..n], reasoning);
      SplitLast(a, b);
      Associate(Written(a, reasoning), Written(b[..n], reasoning),
        if b[n].reasoning == reasoning then b[n].text else "");
    }
  }

  lemma SplitLast<T>(head: seq<T>, tail: seq<T>)
    requires tail != []
    ensures (head + tail)[..|head| + |tail| - 1] == head + tail[..|tail| - 1]
    ensures head + tail != [] && (head + tail)[|head| + |tail| - 1] == tail[|tail| - 1]
  {
  }

  // ------------------------------------------------------------- the collector

  lemma WrittenOfOne(ev: Event, reasoning: bool)
    ensures Written(DeltaOf(ev), reasoning) ==
      if (ev.kind.TextDelta? && !reasoning) || (ev.kind.ReasoningDelta? && reasoning) then EventText(ev) else ""
  {
    if DeltaOf(ev) != [] {
      assert Written(DeltaOf(ev)[..0], reasoning) == "";
    }
  }

  lemma CollectPlain(codec: Codec, c: Collect, ev: Event)
    requires c.error.None?
    ensures CollectNorms(codec, c, PlainOut(ev))
      == c.(text := c.text + Written(DeltaOf(ev), false), reasoning := c.reasoning + Written(DeltaOf(ev), true))
  {
    WrittenOfOne(ev, false);
    WrittenOfOne(ev, true);
    if PlainOut(ev) != [] {
      assert CollectNorms(codec, c, PlainOut(ev)[..0]) == c;
    }
  }

  // An event that neither fails nor ends the turn only adds its content.
  lemma CollectOneMore(codec: Codec, c: Collect, ev: Event)
    requires c.error.None? && EventProblem(codec, ev).None? && (ev.kind.FinishEvent? ==> c.norm.finished)
    ensures CollectEvent(codec, c, ev) == c.(
      norm := Consume(codec, c.norm, ev).state,
      text := c.text + Written(DeltaOf(ev), false),
      reasoning := c.reasoning + Written(DeltaOf(ev), true))
  {
    ConsumePlain(codec, c.norm, ev);
    CollectPlain(codec, c.(norm := Consume(codec, c.norm, ev).state), ev);
  }

  lemma RunOneMore(codec: Codec, events: seq<Event>)
    requires events != [] && AllQuiet(codec, events)
    ensures Run(codec, events).state
      == Consume(codec, Run(codec, events[..|events| - 1]).state, events[|events| - 1]).state
  {
    var n := |events| - 1;
    QuietRun(codec, events[..n]);
    ConsumeProblem(codec, Run(codec, events[..n]).state, events[n]);
  }

  lemma {:induction false} CollectQuiet(codec: Codec, events: seq<Event>)
    requires AllQuiet(codec, events)
    ensures CollectEvents(codec, events) == Collect(
      Run(codec, events).state, [], Written(Deltas(events), false), Written(Deltas(events), true), None, false, None)
  {
    if events != [] {
      var n := |events| - 1;
      CollectQuiet(codec, events[..n]);
      CollectOneMore(codec, CollectEvents(codec, events[..n]), events[n]);
      RunOneMore(codec, events);
      WrittenConcat(Deltas(events[..n]), DeltaOf(events[n]), false);
      WrittenConcat(Deltas(events[..n]), DeltaOf(events[n]), true);
    }
  }

  /** Why the events after the finish event fail the non-streaming handler, if they do. */
  function FirstProblem(codec: Codec, events: seq<Event>): Option<EventError> {
    if events == [] then None
    else
      var n := |events| - 1;
      var before := FirstProblem(codec, events[..n]);
      if before.Some? then before else EventProblem(codec, events[n])
  }

  // The collector after the finish event and some more events without a problem.
  predicate CollectedMore(c: Collect, d: Collect, deltas: seq<Delta>) {
    && d == c.(norm := d.norm,
      text := c.text + Written(deltas, false), reasoning := c.reasoning + Written(deltas, true))
    && d.norm.finished && ViewOf(d.norm) == ViewOf(c.norm)
  }

  lemma WrittenMore(before: string, deltas: seq<Delta>, ev: Event, reasoning: bool)
    ensures before + Written(deltas, reasoning) + Written(DeltaOf(ev), reasoning)
      == before + Written(deltas + DeltaOf(ev), reasoning)
  {
    WrittenConcat(deltas, DeltaOf(ev), reasoning);
  }

  lemma CollectedNothing(c: Collect)
    requires c.norm.finished
    ensures CollectedMore(c, c, Deltas([]))
  {
    assert c.text + "" == c.text && c.reasoning + "" == c.reasoning;
  }

  lemma CollectTailStep(codec: Codec, c: Collect, d: Collect, deltas: seq<Delta>, ev: Event)
    requires c.error.None? && CollectedMore(c, d, deltas)
    ensures CollectEvent(codec, d, ev).error == EventProblem(codec, ev)
    ensures EventProblem(codec, ev).None? ==> CollectedMore(c, CollectEvent(codec, d, ev), deltas + DeltaOf(ev))
  {
    ConsumeProblem(codec, d.norm, ev);
    if EventProblem(codec, ev).None? {
      CollectOneMore(codec, d, ev);
      FinishedStep(codec, d.norm, ev);
      WrittenMore(c.text, deltas, ev, false);
      WrittenMore(c.reasoning, deltas, ev, true);
    }
  }

  /** The events after the finish event: the first failing one fails the collector; without one,
  their content is still added, and nothing else changes. */
  lemma {:induction false} CollectTail(codec: Codec, head: seq<Event>, tail: seq<Event>)
    requires CollectEvents(codec, head).error.None? && CollectEvents(codec, head).norm.finished
    ensures
      var d := CollectEvents(codec, head + tail);
      && d.error == FirstProblem(codec, tail)
      && (d.error.None? ==> CollectedMore(CollectEvents(codec, head), d, Deltas(tail)))
  {
    hide CollectEvent, Consume, EventProblem, CollectedMore;
    if tail == [] {
      assert head + tail == head;
      CollectedNothing(CollectEvents(codec, head));
    } else {
      var n := |tail| - 1;
      CollectTail(codec, head, tail[..n]);
      SplitLast(head, tail);
      var before := CollectEvents(codec, head + tail[..n]);
      if before.error.None? {
        CollectTailStep(codec, CollectEvents(codec, head), before, Deltas(tail[..n]), tail[n]);
      }
    }
  }

  // The calls of the finish event, all valid and with distinct ids, are collected as they are.
  lemma {:induction false} CollectCalls(codec: Codec, c: Collect, calls: seq<ToolCall>)
    requires c.error.None? && c.calls == []
    requires AllValid(codec, calls) && DistinctIds(calls)
    ensures CollectNorms(codec, c, CallsOut(calls)) == c.(calls := calls)
  {
    hide ToolCallProblem, AddCall, DistinctIds;
    if calls != [] {
      var n := |calls| - 1;
      DistinctFront(calls);
      CollectCalls(codec, c, calls[..n]);
      assert CallsOut(calls)[..n] == CallsOut(calls[..n]);
      AddDistinct(calls);
    }
  }

  lemma DistinctFront(calls: seq<ToolCall>)
    requires calls != [] && DistinctIds(calls)
    ensures DistinctIds(calls[..|calls| - 1])
  {
  }

  lemma AddDistinct(calls: seq<ToolCall>)
    requires calls != [] && DistinctIds(calls)
    ensures AddCall(calls[..|calls| - 1], calls[|calls| - 1]) == calls
  {
    var n := |calls| - 1;
    assert calls == calls[..n] + [calls[n]];
  }

  // ------------------------------------------------------------ the stream writer

  /** The frames of some pieces of content; the first carries the role. */
  function ContentFrames(deltas: seq<Delta>): (frames: seq<Frame>)
    ensures |frames| == |deltas|
    ensures forall i :: 0 <= i < |frames| ==> frames[i] == ContentFrame(i == 0, deltas[i])
  {
    if deltas == [] then []
    else
      var n := |deltas| - 1;
      ContentFrames(deltas[..n]) + [ContentFrame(n == 0, deltas[n])]
  }

  function ContentFrame(role: bool, d: Delta): Frame {
    if d.reasoning then Chunk(role, "", d.text, [], None) else Chunk(role, d.text, "", [], None)
  }

  // A writer that has written some content and nothing else.
  function Writing(norm: Norm, deltas: seq<Delta>): Stream {
    Stream(norm, [], deltas == [], false, false, ContentFrames(deltas), None)
  }

  lemma OneNorm(codec: Codec, s: Stream, e: NormEvent, includeUsage: bool)
    requires s.error.None?
    ensures StreamNorms(codec, s, [e], includeUsage) == StreamNorm(codec, s, e, includeUsage)
  {
    assert [e][..0] == [];
  }

  lemma WritingMore(norm: Norm, deltas: seq<Delta>, text: string, reasoning: bool)
    ensures EmitContent(Writing(norm, deltas), text, reasoning)
      == Writing(norm, deltas + if text == "" then [] else [Delta(reasoning, text)])
  {
    if text == "" {
      assert deltas + [] == deltas;
    } else {
      assert (deltas + [Delta(reasoning, text)])[..|deltas|] == deltas;
    }
  }

  lemma StreamPlain(codec: Codec, norm: Norm, deltas: seq<Delta>, ev: Event, includeUsage: bool)
    ensures StreamNorms(codec, Writing(norm, deltas), PlainOut(ev), includeUsage) == Writing(norm, deltas + DeltaOf(ev))
  {
    hide StreamNorms, EmitContent, ContentFrames;
    var s := Writing(norm, deltas);
    if PlainOut(ev) == [] {
      NoNorms(codec, s, includeUsage);
      assert deltas + [] == deltas;
    } else {
      OneNorm(codec, s, PlainOut(ev)[0], includeUsage);
      assert PlainOut(ev) == [PlainOut(ev)[0]];
      WritingMore(norm, deltas, EventText(ev), ev.kind.ReasoningDelta?);
      assert deltas + [] == deltas;
    }
  }

  lemma NoNorms(codec: Codec, s: Stream, includeUsage: bool)
    ensures StreamNorms(codec, s, [], includeUsage) == s
  {
  }

  lemma {:induction false} StreamQuiet(codec: Codec, events: seq<Event>, includeUsage: bool)
    requires AllQuiet(codec, events)
    ensures StreamEvents(codec, events, includeUsage) == Writing(Run(codec, events).state, Deltas(events))
  {
    if events != [] {
      var n := |events| - 1;
      StreamQuiet(codec, events[..n], includeUsage);
      var before := Run(codec, events[..n]).state;
      ConsumePlain(codec, before, events[n]);
      StreamPlain(codec, Consume(codec, before, events[n]).state, Deltas(events[..n]), events[n], includeUsage);
      RunOneMore(codec, events);
    }
  }

  lemma {:induction false} StreamCalls(codec: Codec, s: Stream, calls: seq<ToolCall>, includeUsage: bool)
    requires s.error.None? && s.collected == []
    requires AllValid(codec, calls) && DistinctIds(calls)
    ensures StreamNorms(codec, s, CallsOut(calls), includeUsage) == s.(collected := calls)
  {
    hide ToolCallProblem, AddCall, DistinctIds;
    if calls != [] {
      var n := |calls| - 1;
      DistinctFront(calls);
      StreamCalls(codec, s, calls[..n], includeUsage);
      assert CallsOut(calls)[..n] == CallsOut(calls[..n]);
      AddDistinct(calls);
    }
  }

  lemma {:induction false} StreamNormsDone(codec: Codec, s: Stream, es: seq<NormEvent>, includeUsage: bool)
    requires s.done && s.error.None?
    requires forall i :: 0 <= i < |es| ==> !es[i].FinishOut? && !es[i].CallOut?
    ensures StreamNorms(codec, s, es, includeUsage) == s
  {
    if es != [] {
      StreamNormsDone(codec, s, es[..|es| - 1], includeUsage);
    }
  }

  // The writer after [DONE] and some more events.
  predicate StreamedMore(s: Stream, t: Stream) {
    && t == s.(norm := t.norm, error := t.error)
    && t.norm.finished && ViewOf(t.norm) == ViewOf(s.norm)
  }

  lemma StreamTailStep(codec: Codec, s: Stream, t: Stream, ev: Event, includeUsage: bool)
    requires s.done && t.error.None? && StreamedMore(s, t)
    ensures StreamedMore(s, StreamEvent(codec, t, ev, includeUsage))
  {
    var step := Consume(codec, t.norm, ev);
    FinishedStep(codec, t.norm, ev);
    if step.result.Ok? {
      StreamNormsDone(codec, t.(norm := step.state), step.result.value, includeUsage);
    }
  }

  /** Once [DONE] is written nothing can be added to the stream, whatever else arrives. */
  lemma {:induction false} StreamTail(codec: Codec, head: seq<Event>, tail: seq<Event>, includeUsage: bool)
    requires
      var s := StreamEvents(codec, head, includeUsage);
      s.done && s.error.None? && s.norm.finished
    ensures StreamedMore(StreamEvents(codec, head, includeUsage), StreamEvents(codec, head + tail, includeUsage))
  {
    hide StreamEvent, Consume, ViewOf;
    if tail == [] {
      assert head + tail == head;
    } else {
      var n := |tail| - 1;
      StreamTail(codec, head, tail[..n], includeUsage);
      SplitLast(head, tail);
      var before := StreamEvents(codec, head + tail[..n], includeUsage);
      if before.error.None? {
        StreamTailStep(codec, StreamEvents(codec, head, includeUsage), before, tail[n], includeUsage);
      }
    }
  }
}
