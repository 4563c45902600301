/** When the streaming and the non-streaming handler agree about one upstream response. */
module Agreement {
  import opened GoStrings
  import opened Events
  import opened Normalizer
  import opened Handlers
  import opened Outcomes
  import opened HandlerProperties

  // ------------------------------------------------------- the collector, closed

  /** What the non-streaming handler answers, read off the events. Unlike the stream, it depends
  on what follows the finish event. */
  function ReplyOf(codec: Codec, up: Upstream): Replied {
    if !Reached(codec, up) then Replied(Refused(OutcomeOf(codec, up).failure), None)
    else
      var pre, tail := Before(codec, up), AfterFinish(codec, up);
      var reason := FinishReasonOf(up.events[Boundary(codec, up.events)]).value;
      var view := Reported(FinalUsage(codec, up));
      if FirstProblem(codec, tail).Some? then
        Replied(Refused(StreamError(FromEvent(FirstProblem(codec, tail).value))), None)
      else if up.end.Failed? then Replied(Refused(StreamError(FromParse(up.end.error))), None)
      else if Refusable(reason, Calls(codec, up)) then Replied(Refused(InvalidToolCall), None)
      else
        Replied(
          Answer(
            Written(Deltas(pre), false) + Written(Deltas(tail), false),
            Written(Deltas(pre), true) + Written(Deltas(tail), true),
            Calls(codec, up), ResolveFinishReason(reason, Calls(codec, up) != [], reason == LengthReason), view.usage),
          Some(CountsOfView(view)))
  }

  // A collector that has gathered some content and nothing else.
  function Gathering(norm: Norm, deltas: seq<Delta>): Collect {
    Collect(norm, [], Written(deltas, false), Written(deltas, true), None, false, None)
  }

  lemma CollectNormsSnoc(codec: Codec, c: Collect, es: seq<NormEvent>, e: NormEvent)
    ensures
      var before := CollectNorms(codec, c, es);
      CollectNorms(codec, c, es + [e]) == if before.error.Some? then before else CollectNorm(codec, before, e)
  {
    assert (es + [e])[..|es|] == es;
  }

  lemma CollectFinish(codec: Codec, norm: Norm, deltas: seq<Delta>, calls: seq<ToolCall>, reason: FinishReason,
        usage: Usage)
    requires AllValid(codec, calls) && DistinctIds(calls)
    ensures
      CollectNorms(codec, Gathering(norm, deltas), CallsOut(calls) + [FinishOut(reason, usage, reason == LengthReason)])
        == Gathering(norm, deltas).(calls := calls, reason := Some(reason), truncated := reason == LengthReason)
  {
    hide CollectNorms, CallsOut, AllValid, DistinctIds, ToolCallProblem, Written;
    CollectNormsSnoc(codec, Gathering(norm, deltas), CallsOut(calls), FinishOut(reason, usage, reason == LengthReason));
    CollectCalls(codec, Gathering(norm, deltas), calls);
  }

  // The collector right after the finish event.
  lemma CollectAtFinish(codec: Codec, up: Upstream)
    requires Reached(codec, up)
    ensures
      var c := CollectEvents(codec, UpToBoundary(codec, up));
      var reason := FinishReasonOf(up.events[Boundary(codec, up.events)]).value;
      && c == Gathering(c.norm, Deltas(Before(codec, up))).(
                calls := Calls(codec, up), reason := Some(reason), truncated := reason == LengthReason)
      && c.norm.finished && ViewOf(c.norm) == Reported(FinalUsage(codec, up))
  {
    hide NormalizeFinishReason, Boundary, Consume, CallsOut, CollectNorms, Reported, FinalUsage, Deltas;
    var pre, b := Before(codec, up), Boundary(codec, up.events);
    BoundaryEvent(codec, up);
    CollectQuiet(codec, pre);
    NormAtFinish(codec, up);
    CallsAreGood(codec, up);
    var step := Consume(codec, Run(codec, pre).state, up.events[b]);
    CollectFinish(codec, step.state, Deltas(pre), Calls(codec, up), FinishReasonOf(up.events[b]).value,
      Reported(FinalUsage(codec, up)).usage);
  }

  lemma CollectUnreached(codec: Codec, up: Upstream)
    requires !Reached(codec, up)
    ensures CollectRun(codec, up) == ReplyOf(codec, up)
  {
    hide NormalizeFinishReason, Boundary, Consume, EventProblem, Deltas, Written, Reported, CallsIn, FirstPerId;
    var pre, b := Before(codec, up), Boundary(codec, up.events);
    if b == |up.events| {
      assert pre == up.events;
      UnfinishedOutcome(codec, up);
      CollectQuiet(codec, pre);
      QuietRun(codec, pre);
    } else {
      BoundaryEvent(codec, up);
      CollectQuiet(codec, pre);
      BrokenStep(codec, up);
      CollectEventsStop(codec, up.events, b + 1);
    }
  }

  lemma UnfinishedOutcome(codec: Codec, up: Upstream)
    requires Boundary(codec, up.events) == |up.events|
    ensures AllQuiet(codec, up.events) && OutcomeOf(codec, up) == Broke(EarlyEnd(up.end))
  {
  }

  /** The non-streaming answer to every upstream run. */
  lemma CollectClosedForm(codec: Codec, up: Upstream)
    ensures CollectRun(codec, up) == ReplyOf(codec, up)
  {
    hide NormalizeFinishReason, Boundary, CollectEvents, Deltas, Written, Reported, FinalUsage, OutcomeOf,
      FirstProblem, FirstPerId, CallsIn;
    if Reached(codec, up) {
      BoundaryEvent(codec, up);
      CollectAtFinish(codec, up);
      CollectTail(codec, UpToBoundary(codec, up), AfterFinish(codec, up));
    } else {
      CollectUnreached(codec, up);
    }
  }

  // ------------------------------------------------------------------ agreement

  /** Both fail or neither does; and then the client of the stream has gathered exactly what the
  answer says, and the same counts were recorded. */
  predicate Agree(c: Client, recorded: Counts, r: Replied, includeUsage: bool) {
    && (c.failure.Some? <==> r.reply.Refused?)
    && (r.reply.Answer? ==>
      && c.content == r.reply.text && c.reasoning == r.reply.reasoning
      && c.calls == Indexed(r.reply.calls) && c.finish == Some(r.reply.finish)
      && (includeUsage ==> c.usage == Some(r.reply.usage))
      && r.recorded == Some(recorded))
  }

  /** Nothing that matters follows the finish event: no failing event, no piece of content, and
  no failure of the parse. */
  predicate QuietTail(codec: Codec, up: Upstream) {
    && !up.end.Failed?
    && forall i :: 0 <= i < |AfterFinish(codec, up)| ==>
      EventProblem(codec, AfterFinish(codec, up)[i]).None? && DeltaOf(AfterFinish(codec, up)[i]) == []
  }

  lemma {:induction false} NoDeltas(events: seq<Event>)
    ensures Deltas(events) == [] <==> forall i :: 0 <= i < |events| ==> DeltaOf(events[i]) == []
  {
    hide DeltaOf;
    if events != [] {
      var n := |events| - 1;
      NoDeltas(events[..n]);
      assert forall i :: 0 <= i < n ==> events[..n][i] == events[i];
    }
  }

  lemma {:induction false} NoProblem(codec: Codec, events: seq<Event>)
    ensures FirstProblem(codec, events).None?
      <==> forall i :: 0 <= i < |events| ==> EventProblem(codec, events[i]).None?
  {
    hide EventProblem;
    if events != [] {
      var n := |events| - 1;
      NoProblem(codec, events[..n]);
      assert forall i :: 0 <= i < n ==> events[..n][i] == events[i];
    }
  }

  lemma {:induction false} NothingWritten(deltas: seq<Delta>)
    requires forall i :: 0 <= i < |deltas| ==> deltas[i].text != ""
    ensures deltas == [] <==> Written(deltas, false) == "" && Written(deltas, true) == ""
  {
    if deltas != [] {
      var n := |deltas| - 1;
      assert deltas[n].text != "";
      assert |Written(deltas, deltas[n].reasoning)| >= |deltas[n].text|;
    }
  }

  lemma AppendedNothing(a: string, b: string)
    ensures a == a + b <==> b == ""
  {
    if b != "" {
      assert |a + b| > |a|;
    }
  }

  // The tail is quiet exactly when it neither fails nor writes anything.
  lemma QuietTailMeaning(codec: Codec, up: Upstream)
    ensures
      var tail := AfterFinish(codec, up);
      QuietTail(codec, up) <==>
        && !up.end.Failed? && FirstProblem(codec, tail).None?
        && Written(Deltas(tail), false) == "" && Written(Deltas(tail), true) == ""
  {
    hide EventProblem, DeltaOf, Boundary;
    var tail := AfterFinish(codec, up);
    NoDeltas(tail);
    NoProblem(codec, tail);
    DeltasNotEmpty(tail);
    NothingWritten(Deltas(tail));
  }

  /** The two handlers agree about an upstream response exactly when the turn did not come out
  well (then both fail), or nothing that matters follows the finish event. */
  lemma HandlersAgreeExactlyWhen(codec: Codec, up: Upstream, includeUsage: bool)
    ensures
      var s := StreamRun(codec, up, includeUsage);
      Agree(ReceiveAll(NOTHING, s.out), s.recorded, CollectRun(codec, up), includeUsage)
      <==> OutcomeOf(codec, up).Broke? || QuietTail(codec, up)
  {
    hide Boundary, NormalizeFinishReason, StreamRun, CollectRun, ReceiveAll, QuietTail, Reported, FinalUsage, Deltas,
      Written, FirstProblem, CallsIn, FirstPerId, EventProblem;
    StreamClosedForm(codec, up, includeUsage);
    ClientReceives(codec, up, includeUsage);
    CollectClosedForm(codec, up);
    QuietTailMeaning(codec, up);
    var pre, tail := Deltas(Before(codec, up)), Deltas(AfterFinish(codec, up));
    AppendedNothing(Written(pre, false), Written(tail, false));
    AppendedNothing(Written(pre, true), Written(tail, true));
    if Reached(codec, up) {
      OutcomeReached(codec, up);
    } else {
      UnreachedBroke(codec, up);
    }
  }

  lemma UnreachedBroke(codec: Codec, up: Upstream)
    requires !Reached(codec, up)
    ensures OutcomeOf(codec, up).Broke?
  {
  }

  /** In particular they agree whenever only the end of the stream follows the finish event. */
  lemma HandlersAgreeOnProperStreams(codec: Codec, up: Upstream, includeUsage: bool)
    requires AfterFinish(codec, up) == [] && !up.end.Failed?
    ensures
      var s := StreamRun(codec, up, includeUsage);
      Agree(ReceiveAll(NOTHING, s.out), s.recorded, CollectRun(codec, up), includeUsage)
  {
    HandlersAgreeExactlyWhen(codec, up, includeUsage);
  }

  /** When the turn breaks before an acceptable finish event, both report the same failure. */
  lemma HandlersFailAlike(codec: Codec, up: Upstream, includeUsage: bool)
    requires !Reached(codec, up)
    ensures
      var failure := ReceiveAll(NOTHING, StreamRun(codec, up, includeUsage).out).failure;
      failure.Some? && CollectRun(codec, up) == Replied(Refused(failure.value), None)
  {
    hide Boundary, StreamRun, CollectRun, ReceiveAll;
    UnreachedBroke(codec, up);
    ClientReceives(codec, up, includeUsage);
    CollectClosedForm(codec, up);
  }
}
