/** The event normalizer of internal/app/events.go: a state machine over upstream events, and
the class that runs it in place. */
module Normalizer {
  import opened GoStrings
  import opened Events

  datatype NormEvent =
    | TextOut(text: string)
    | ReasoningOut(text: string)
    | CallOut(call: ToolCall)
    | TextEndOut
    | ReasoningEndOut
    | FinishOut(reason: FinishReason, usage: Usage, truncated: bool)

  datatype Norm = Norm(
    buf: map<string, string>, order: seq<string>, kept: seq<ToolCall>,
    usage: Usage, cacheRead: int, cacheWrite: int, finished: bool, truncated: bool)

  const NO_USAGE: Usage := Usage(0, 0, 0, None)

  const INITIAL: Norm := Norm(map[], [], [], NO_USAGE, 0, 0, false, false)

  // --------------------------------------------------------------- the fields

  function RemoveFirst(order: seq<string>, id: string): seq<string> {
    if order == [] then []
    else if order[0] == id then order[1..]
    else [order[0]] + RemoveFirst(order[1..], id)
  }

  lemma {:induction false} RemoveFirstAt(order: seq<string>, id: string, i: nat)
    requires i <= |order| && id !in order[..i]
    requires i < |order| ==> order[i] == id
    ensures RemoveFirst(order, id) == order[..i] + (if i < |order| then order[i + 1..] else [])
    decreases i
  {
    if i > 0 {
      assert order[0] == order[..i][0];
      assert order[..i] == [order[0]] + order[1..][..i - 1];
      RemoveFirstAt(order[1..], id, i - 1);
    }
  }

  // trackToolInput
  function Track(n: Norm, id: string): Norm {
    if id in n.buf then n else n.(buf := n.buf[id := ""], order := n.order + [id])
  }

  // forgetToolInput
  function Forget(n: Norm, id: string): Norm {
    n.(buf := n.buf - {id}, order := RemoveFirst(n.order, id))
  }

  function ForgetAll(n: Norm, ids: seq<string>): Norm
    decreases |ids|
  {
    if ids == [] then n else ForgetAll(Forget(n, ids[0]), ids[1..])
  }

  // setUsage
  function SetUsage(n: Norm, u: CCUsage): Norm {
    var total := if u.total > 0 then u.total else u.input + u.output;
    match u.details
    case Some(d) =>
      n.(usage := Usage(u.input, u.output, total, Some(d.cacheRead)),
         cacheRead := d.cacheRead, cacheWrite := d.cacheWrite)
    case None =>
      n.(usage := Usage(u.input, u.output, total, None), cacheRead := 0, cacheWrite := 0)
  }

  function CallsOut(calls: seq<ToolCall>): (out: seq<NormEvent>)
    ensures |out| == |calls| && forall i :: 0 <= i < |out| ==> out[i] == CallOut(calls[i])
  {
    if calls == [] then [] else [CallOut(calls[0])] + CallsOut(calls[1..])
  }

  // --------------------------------------------------------- one event's effect

  datatype Step = Step(state: Norm, result: Result<seq<NormEvent>, EventError>)

  function Finish(n: Norm, ev: Event, reason: FinishReason): Step {
    var counted := if ev.totalUsage.Some? then SetUsage(n, ev.totalUsage.value) else n;
    var done := ForgetAll(counted, counted.order).(finished := true, truncated := reason == LengthReason);
    Step(done, Ok(CallsOut(done.kept) + [FinishOut(reason, done.usage, done.truncated)]))
  }

  /** ccEventNormalizer.Consume. */
  function Consume(codec: Codec, n: Norm, ev: Event): Step {
    match ev.kind
    case TextDelta => Step(n, Ok([TextOut(EventText(ev))]))
    case ReasoningDelta => Step(n, Ok([ReasoningOut(EventText(ev))]))
    case ToolCallEvent =>
      (match ToolCallFromEvent(codec, ev)
       case Err(e) => Step(n, Err(e))
       case Ok(call) => Step(n.(kept := AddCall(n.kept, call)), Ok([])))
    case ToolInputStart =>
      var id := EventToolCallId(ev);
      if id == "" then Step(n, Err(MissingToolInputId))
      else var t := Track(n, id); Step(t.(buf := t.buf[id := ""]), Ok([]))
    case ToolInputDelta =>
      var id := EventToolCallId(ev);
      if id == "" then Step(n, Err(MissingToolInputId))
      else var t := Track(n, id); Step(t.(buf := t.buf[id := t.buf[id] + ev.delta]), Ok([]))
    case ToolInputEnd => Step(EndToolInput(n, ev), Ok([]))
    case ToolInputAvailable => Step(EndToolInput(n, ev), Ok([]))
    case ToolError => Step(Forget(n, EventToolCallId(ev)), Ok([]))
    case FinishStep =>
      if n.finished || ev.usage.None? then Step(n, Ok([])) else Step(SetUsage(n, ev.usage.value), Ok([]))
    case FinishEvent =>
      if n.finished then Step(n, Ok([]))
      else
        (match FinishReasonOf(ev)
         case Err(e) => Step(n, Err(e))
         case Ok(reason) => Finish(n, ev, reason))
    case TextEndEvent => Step(n, Ok([TextEndOut]))
    case ReasoningEndEvent => Step(n, Ok([ReasoningEndOut]))
    case ErrorEvent => Step(n, Err(UpstreamError(ev.error)))
    case OtherEvent(_) => Step(n, Ok([]))
  }

  // finishToolInput: its verdict on the buffered input is discarded by Consume
  function EndToolInput(n: Norm, ev: Event): Norm {
    var id := EventToolCallId(ev);
    if id == "" then n else Forget(n, id)
  }

  function ToolInputVerdict(codec: Codec, n: Norm, ev: Event): Option<EventError> {
    var id := EventToolCallId(ev);
    if id == "" then Some(MissingToolInputId)
    else
      var raw := if id in n.buf then n.buf[id] else "";
      if raw != "" then
        if NormalizeToolInput(codec, raw).None? then Some(BadArguments(id)) else None
      else match EventToolInput(ev) {
        case None => if id in n.buf then Some(EmptyToolInput(id)) else None
        case Some(input) => if EncodeArguments(codec, input).None? then Some(BadArguments(id)) else None
      }
  }

  // -------------------------------------------------- what every event keeps

  predicate NoDuplicates(order: seq<string>) {
    forall i, j :: 0 <= i < j < |order| ==> order[i] != order[j]
  }

  /** The order list has no duplicates and lists exactly the keys of the buffer. */
  ghost predicate Consistent(n: Norm) {
    NoDuplicates(n.order) && forall id :: id in n.order <==> id in n.buf
  }

  lemma {:induction false} RemoveFirstMeaning(order: seq<string>, id: string)
    requires NoDuplicates(order)
    ensures NoDuplicates(RemoveFirst(order, id))
    ensures forall x :: x in RemoveFirst(order, id) <==> x in order && x != id
    ensures id !in order ==> RemoveFirst(order, id) == order
    decreases |order|
  {
    if order != [] {
      var rest := order[1..];
      assert order == [order[0]] + rest;
      assert order[0] !in rest;
      RemoveFirstMeaning(rest, id);
      var removed := RemoveFirst(rest, id);
      assert forall j :: 0 <= j < |removed| ==> removed[j] in rest;
    }
  }

  lemma RemoveFirstPlace(order: seq<string>, id: string)
    requires NoDuplicates(order)
    ensures forall i :: 0 <= i < |order| && order[i] == id ==> RemoveFirst(order, id) == order[..i] + order[i + 1..]
  {
    forall i | 0 <= i < |order| && order[i] == id
      ensures RemoveFirst(order, id) == order[..i] + order[i + 1..]
    {
      RemoveFirstAt(order, id, i);
    }
  }

  lemma ForgetKeepsConsistency(n: Norm, id: string)
    requires Consistent(n)
    ensures Consistent(Forget(n, id))
  {
    RemoveFirstMeaning(n.order, id);
  }

  lemma {:induction false} ForgetAllEmptiesTheBuffer(n: Norm, ids: seq<string>)
    requires Consistent(n) && forall id :: id in n.order ==> id in ids
    ensures ForgetAll(n, ids) == n.(buf := map[], order := [])
    decreases |ids|
  {
    if ids == [] {
      var first := if n.order == [] then "" else n.order[0];
      assert n.order != [] ==> first in n.order;
      assert n.buf == map[];
    } else {
      ForgetKeepsConsistency(n, ids[0]);
      RemoveFirstMeaning(n.order, ids[0]);
      ForgetAllEmptiesTheBuffer(Forget(n, ids[0]), ids[1..]);
    }
  }

  lemma TrackKeepsConsistency(n: Norm, id: string, text: string)
    requires Consistent(n)
    ensures id in Track(n, id).buf && Consistent(Track(n, id).(buf := Track(n, id).buf[id := text]))
  {
  }

  lemma FinishEmptiesTheBuffer(n: Norm, ev: Event, reason: FinishReason)
    requires Consistent(n)
    ensures
      var s := Finish(n, ev, reason).state;
      Consistent(s) && s.buf == map[] && s.order == []
  {
    var counted := if ev.totalUsage.Some? then SetUsage(n, ev.totalUsage.value) else n;
    ForgetAllEmptiesTheBuffer(counted, counted.order);
  }

  /** Every event keeps the order list and the buffer in step, and the finish event empties both. */
  lemma ConsumeKeepsConsistency(codec: Codec, n: Norm, ev: Event)
    requires Consistent(n)
    ensures Consistent(Consume(codec, n, ev).state)
    ensures
      var s := Consume(codec, n, ev);
      ev.kind == FinishEvent && !n.finished && s.result.Ok? ==> s.state.buf == map[] && s.state.order == []
  {
    hide NormalizeFinishReason, ToolCallFromEvent, Finish, Track, Forget, NoDuplicates;
    var id := EventToolCallId(ev);
    match ev.kind {
      case ToolInputStart => TrackKeepsConsistency(n, id, "");
      case ToolInputDelta =>
        TrackKeepsConsistency(n, id, "");
        TrackKeepsConsistency(n, id, Track(n, id).buf[id] + ev.delta);
      case ToolError => ForgetKeepsConsistency(n, id);
      case ToolInputEnd => ForgetKeepsConsistency(n, id);
      case ToolInputAvailable => ForgetKeepsConsistency(n, id);
      case FinishEvent =>
        if !n.finished && FinishReasonOf(ev).Ok? {
          FinishEmptiesTheBuffer(n, ev, FinishReasonOf(ev).value);
        }
      case _ =>
    }
  }

  // ------------------------------------------------------- runs of the normalizer

  /** A run of the normalizer over a list of events, up to the first error: the final state, the
  events it emitted, and the error if there was one. */
  datatype Trace = Trace(state: Norm, out: seq<NormEvent>, error: Option<EventError>)

  function Run(codec: Codec, events: seq<Event>): Trace {
    if events == [] then Trace(INITIAL, [], None)
    else
      var t := Run(codec, events[..|events| - 1]);
      if t.error.Some? then t
      else
        var s := Consume(codec, t.state, events[|events| - 1]);
        match s.result
        case Err(e) => Trace(s.state, t.out, Some(e))
        case Ok(out) => Trace(s.state, t.out + out, None)
  }

  /** In every run the order list and the buffer stay in step. */
  lemma {:induction false} RunKeepsConsistency(codec: Codec, events: seq<Event>)
    ensures Consistent(Run(codec, events).state)
  {
    if events != [] {
      var n := |events| - 1;
      RunKeepsConsistency(codec, events[..n]);
      ConsumeKeepsConsistency(codec, Run(codec, events[..n]).state, events[n]);
    }
  }

  // ------------------------------------------------------------ provisional events

  /** The events that only announce or abandon a tool input. */
  predicate Provisional(ev: Event) {
    || ev.kind.ToolInputEnd? || ev.kind.ToolInputAvailable? || ev.kind.ToolError?
    || ((ev.kind.ToolInputStart? || ev.kind.ToolInputDelta?) && (ev.toolCallId != "" || ev.id != ""))
  }

  function Erase(events: seq<Event>): seq<Event> {
    if events == [] then []
    else
      var n := |events| - 1;
      Erase(events[..n]) + if Provisional(events[n]) then [] else [events[n]]
  }

  // Two states that differ in their provisional buffers at most.
  predicate SameButProvisional(a: Norm, b: Norm) {
    a.(buf := map[], order := []) == b.(buf := map[], order := [])
  }

  lemma {:induction false} ForgetAllIsProvisional(n: Norm, ids: seq<string>)
    ensures SameButProvisional(ForgetAll(n, ids), n)
    decreases |ids|
  {
    if ids != [] {
      ForgetAllIsProvisional(Forget(n, ids[0]), ids[1..]);
    }
  }

  lemma ProvisionalEventsAreSilent(codec: Codec, n: Norm, ev: Event)
    requires Provisional(ev)
    ensures Consume(codec, n, ev).result == Ok([])
    ensures SameButProvisional(Consume(codec, n, ev).state, n)
  {
  }

  lemma FinishIgnoresBuffers(a: Norm, b: Norm, ev: Event, reason: FinishReason)
    requires SameButProvisional(a, b)
    ensures Finish(a, ev, reason).result == Finish(b, ev, reason).result
    ensures SameButProvisional(Finish(a, ev, reason).state, Finish(b, ev, reason).state)
  {
    var x := if ev.totalUsage.Some? then SetUsage(a, ev.totalUsage.value) else a;
    var y := if ev.totalUsage.Some? then SetUsage(b, ev.totalUsage.value) else b;
    ForgetAllIsProvisional(x, x.order);
    ForgetAllIsProvisional(y, y.order);
  }

  lemma ConsumeIgnoresBuffers(codec: Codec, a: Norm, b: Norm, ev: Event)
    requires SameButProvisional(a, b) && !Provisional(ev)
    ensures Consume(codec, a, ev).result == Consume(codec, b, ev).result
    ensures SameButProvisional(Consume(codec, a, ev).state, Consume(codec, b, ev).state)
  {
    hide NormalizeFinishReason, ToolCallFromEvent, Finish;
    if ev.kind.FinishEvent? {
      match FinishReasonOf(ev) {
        case Err(_) =>
        case Ok(reason) => FinishIgnoresBuffers(a, b, ev, reason);
      }
    }
  }

  /** Provisional events never influence anything: without them a run emits the same events, ends
  in the same error or in none, and reports the same usage. */
  lemma {:induction false} ErasureChangesNothing(codec: Codec, events: seq<Event>)
    ensures
      var x, y := Run(codec, events), Run(codec, Erase(events));
      x.out == y.out && x.error == y.error && SameButProvisional(x.state, y.state)
  {
    if events != [] {
      var n := |events| - 1;
      var ev := events[n];
      ErasureChangesNothing(codec, events[..n]);
      var x, y := Run(codec, events[..n]), Run(codec, Erase(events[..n]));
      if Provisional(ev) {
        ProvisionalEventsAreSilent(codec, x.state, ev);
        assert Erase(events) == Erase(events[..n]);
        assert x.out + [] == x.out;
      } else {
        ConsumeIgnoresBuffers(codec, x.state, y.state, ev);
        assert Erase(events)[..|Erase(events)| - 1] == Erase(events[..n]);
      }
    }
  }

  // --------------------------------------------- how a provisional input is judged

  function After(codec: Codec, n: Norm, events: seq<Event>): Norm
    decreases |events|
  {
    if events == [] then n else After(codec, Consume(codec, n, events[0]).state, events[1..])
  }

  function Gathered(deltas: seq<Event>): string {
    if deltas == [] then "" else deltas[0].delta + Gathered(deltas[1..])
  }

  predicate DeltasOf(id: string, events: seq<Event>) {
    forall i :: 0 <= i < |events| ==> events[i].kind.ToolInputDelta? && CallIdOf(events[i]) == id
  }

  lemma {:induction false} DeltasAreGathered(codec: Codec, n: Norm, id: string, deltas: seq<Event>)
    requires id != "" && id in n.buf && DeltasOf(id, deltas)
    ensures After(codec, n, deltas) == n.(buf := n.buf[id := n.buf[id] + Gathered(deltas)])
    decreases |deltas|
  {
    if deltas == [] {
      assert n.buf[id] + "" == n.buf[id];
      assert n.buf[id := n.buf[id]] == n.buf;
    } else {
      var next := Consume(codec, n, deltas[0]).state;
      assert next == n.(buf := n.buf[id := n.buf[id] + deltas[0].delta]);
      DeltasAreGathered(codec, next, id, deltas[1..]);
      Associate(n.buf[id], deltas[0].delta, Gathered(deltas[1..]));
      assert next.buf[id := n.buf[id] + Gathered(deltas)] == n.buf[id := n.buf[id] + Gathered(deltas)];
    }
  }

  /** A provisional tool input is judged as a whole: the deltas since its start are put together, and
  its end finds fault with it exactly when together they are something other than one JSON object;
  whatever the verdict, the input is forgotten. */
  lemma ToolInputIsJudgedWhole(codec: Codec, n: Norm, start: Event, deltas: seq<Event>, end: Event)
    requires Consistent(n)
    requires start.kind.ToolInputStart? && CallIdOf(start) != "" && DeltasOf(CallIdOf(start), deltas)
    requires CallIdOf(end) == CallIdOf(start) && Gathered(deltas) != ""
    ensures
      var m, whole := After(codec, n, [start] + deltas), TrimSpace(Gathered(deltas));
      && (ToolInputVerdict(codec, m, end).None? <==> whole != "" && codec.isObject(whole))
      && CallIdOf(start) !in EndToolInput(m, end).buf && CallIdOf(start) !in EndToolInput(m, end).order
  {
    hide TrimSpace, Track;
    var id := CallIdOf(start);
    assert ([start] + deltas)[1..] == deltas;
    var begun := Consume(codec, n, start).state;
    TrackKeepsConsistency(n, id, "");
    assert id in begun.buf && begun.buf[id] == "";
    DeltasAreGathered(codec, begun, id, deltas);
    var m := After(codec, begun, deltas);
    assert "" + Gathered(deltas) == Gathered(deltas);
    RemoveFirstMeaning(m.order, id);
  }

  /** What a provisional event does to the buffered inputs: a start buffers its id with nothing, a
  delta adds its text, an end or an error takes the id out; other ids keep their text and their
  place, and nothing else changes. */
  lemma ProvisionalEffect(codec: Codec, n: Norm, ev: Event)
    requires Consistent(n) && Provisional(ev) && CallIdOf(ev) != ""
    ensures
      var s, id := Consume(codec, n, ev).state, CallIdOf(ev);
      var begins, had := ev.kind.ToolInputStart? || ev.kind.ToolInputDelta?, id in n.buf;
      && s == n.(buf := s.buf, order := s.order)
      && (forall x :: x != id ==> (x in s.buf <==> x in n.buf) && (x in n.buf ==> s.buf[x] == n.buf[x]))
      && (id in s.buf <==> begins)
      && (ev.kind.ToolInputStart? ==> s.buf[id] == "")
      && (ev.kind.ToolInputDelta? ==> s.buf[id] == (if had then n.buf[id] else "") + ev.delta)
      && (begins ==> s.order == if had then n.order else n.order + [id])
      && (!begins && !had ==> s.order == n.order)
      && (forall i | 0 <= i < |n.order| && !begins && n.order[i] == id ::
        s.order == n.order[..i] + n.order[i + 1..])
  {
    hide NormalizeFinishReason, ToolCallFromEvent, Finish, SetUsage, RemoveFirst, NoDuplicates;
    RemoveFirstMeaning(n.order, CallIdOf(ev));
    RemoveFirstPlace(n.order, CallIdOf(ev));
  }

  /** Without any deltas the end event itself is judged: by the member that carries its input, or for
  having none when the input was announced. */
  lemma ToolInputIsJudgedByItsEnd(codec: Codec, n: Norm, end: Event)
    requires JsonObjects(codec) && CallIdOf(end) != ""
    requires CallIdOf(end) in n.buf ==> n.buf[CallIdOf(end)] == ""
    ensures
      var verdict := ToolInputVerdict(codec, n, end);
      && (NoInput(end) ==>
        verdict == if CallIdOf(end) in n.buf then Some(EmptyToolInput(CallIdOf(end))) else None)
      && (forall m :: Deciding(end, m) ==> (verdict.None? <==> OneObject(codec, m.value)))
  {
    forall m | Deciding(end, m)
      ensures ToolInputVerdict(codec, n, end).None? <==> OneObject(codec, m.value)
    {
      Encodable(codec, m.value);
    }
  }

  lemma Encodable(codec: Codec, value: Json)
    requires JsonObjects(codec)
    ensures EncodeArguments(codec, value).Some? <==> OneObject(codec, value)
  {
    hide TrimSpace;
    NothingTrimmed();
    match value {
      case Null =>
      case Text(text) => assert JsonObject(codec, TrimSpace(text));
      case Other(encoded) => assert encoded.Some? ==> JsonObject(codec, encoded.value);
    }
  }

  // ------------------------------------------------------------------ the class

  /** ccEventNormalizer. */
  class EventNormalizer {
    const codec: Codec
    const toolCalls: ToolCallDeduper
    var toolInputBuf: map<string, string>
    var toolInputOrder: seq<string>
    var usage: Usage
    var cacheRead: int
    var cacheWrite: int
    var finished: bool
    var truncated: bool

    constructor (codec: Codec)
      ensures this.codec == codec && fresh(toolCalls) && State() == INITIAL
    {
      this.codec := codec;
      toolCalls := new ToolCallDeduper();
      toolInputBuf, toolInputOrder := map[], [];
      usage, cacheRead, cacheWrite := NO_USAGE, 0, 0;
      finished, truncated := false, false;
    }

    function State(): Norm
      reads this, toolCalls
    {
      Norm(toolInputBuf, toolInputOrder, toolCalls.kept, usage, cacheRead, cacheWrite, finished, truncated)
    }

    method TrackToolInput(id: string)
      modifies this
      ensures State() == Track(old(State()), id)
    {
      if id in toolInputBuf {
        return;
      }
      toolInputBuf := toolInputBuf[id := ""];
      toolInputOrder := toolInputOrder + [id];
    }

    method ForgetToolInput(id: string)
      modifies this
      ensures State() == Forget(old(State()), id)
    {
      toolInputBuf := toolInputBuf - {id};
      var i := 0;
      while i < |toolInputOrder|
        invariant 0 <= i <= |toolInputOrder| && toolInputOrder == old(toolInputOrder)
        invariant id !in toolInputOrder[..i]
        invariant State() == old(State()).(buf := old(toolInputBuf) - {id})
      {
        if toolInputOrder[i] == id {
          RemoveFirstAt(toolInputOrder, id, i);
          toolInputOrder := toolInputOrder[..i] + toolInputOrder[i + 1..];
          return;
        }
        i := i + 1;
      }
      RemoveFirstAt(toolInputOrder, id, i);
    }

    method FinishToolInput(ev: Event) returns (err: Option<EventError>)
      modifies this
      ensures State() == EndToolInput(old(State()), ev)
      ensures err == ToolInputVerdict(codec, old(State()), ev)
    {
      var id := EventToolCallId(ev);
      if id == "" {
        return Some(MissingToolInputId);
      }
      var tracked := id in toolInputBuf;
      var raw := if tracked then toolInputBuf[id] else "";
      ForgetToolInput(id);
      if raw != "" {
        return if NormalizeToolInput(codec, raw).None? then Some(BadArguments(id)) else None;
      }
      var input := EventToolInput(ev);
      if input.None? {
        return if tracked then Some(EmptyToolInput(id)) else None;
      }
      return if EncodeArguments(codec, input.value).None? then Some(BadArguments(id)) else None;
    }

    method ApplyUsage(u: CCUsage)
      modifies this
      ensures State() == SetUsage(old(State()), u)
    {
      usage := usage.(prompt := u.input, completion := u.output);
      if u.total > 0 {
        usage := usage.(total := u.total);
      } else {
        usage := usage.(total := u.input + u.output);
      }
      if u.details.Some? {
        cacheRead := u.details.value.cacheRead;
        cacheWrite := u.details.value.cacheWrite;
        usage := usage.(cached := Some(u.details.value.cacheRead));
      } else {
        cacheRead, cacheWrite := 0, 0;
        usage := usage.(cached := None);
      }
    }

    method ConsumeEvent(ev: Event) returns (result: Result<seq<NormEvent>, EventError>)
      modifies this, toolCalls
      ensures Step(State(), result) == Consume(codec, old(State()), ev)
    {
      match ev.kind {
        case TextDelta => result := Ok([TextOut(EventText(ev))]);
        case ReasoningDelta => result := Ok([ReasoningOut(EventText(ev))]);
        case ToolCallEvent =>
          var call := ToolCallFromEvent(codec, ev);
          if call.Err? {
            return Err(call.error);
          }
          var _ := toolCalls.Add(call.value);
          result := Ok([]);
        case ToolInputStart =>
          var id := EventToolCallId(ev);
          if id == "" {
            return Err(MissingToolInputId);
          }
          TrackToolInput(id);
          toolInputBuf := toolInputBuf[id := ""];
          result := Ok([]);
        case ToolInputDelta =>
          var id := EventToolCallId(ev);
          if id == "" {
            return Err(MissingToolInputId);
          }
          TrackToolInput(id);
          toolInputBuf := toolInputBuf[id := toolInputBuf[id] + ev.delta];
          result := Ok([]);
        case ToolInputEnd =>
          var _ := FinishToolInput(ev);
          result := Ok([]);
        case ToolInputAvailable =>
          var _ := FinishToolInput(ev);
          result := Ok([]);
        case ToolError =>
          ForgetToolInput(EventToolCallId(ev));
          result := Ok([]);
        case FinishStep =>
          if !finished && ev.usage.Some? {
            ApplyUsage(ev.usage.value);
          }
          result := Ok([]);
        case FinishEvent =>
          if finished {
            return Ok([]);
          }
          var reason := FinishReasonOf(ev);
          if reason.Err? {
            return Err(reason.error);
          }
          var out := FinishTurn(ev, reason.value);
          result := Ok(out);
        case TextEndEvent => result := Ok([TextEndOut]);
        case ReasoningEndEvent => result := Ok([ReasoningEndOut]);
        case ErrorEvent => result := Err(UpstreamError(ev.error));
        case OtherEvent(_) => result := Ok([]);
      }
    }

    // The finish case of Consume, once the reason is known to be acceptable.
    method FinishTurn(ev: Event, reason: FinishReason) returns (out: seq<NormEvent>)
      modifies this
      ensures Step(State(), Ok(out)) == Finish(old(State()), ev, reason)
    {
      if ev.totalUsage.Some? {
        ApplyUsage(ev.totalUsage.value);
      }
      DropToolInputs();
      finished := true;
      truncated := reason == LengthReason;
      out := [];
      var i := 0;
      while i < |toolCalls.kept|
        invariant 0 <= i <= |toolCalls.kept|
        invariant out == CallsOut(toolCalls.kept)[..i]
      {
        out := out + [CallOut(toolCalls.kept[i])];
        i := i + 1;
      }
      assert CallsOut(toolCalls.kept)[..i] == CallsOut(toolCalls.kept);
      out := out + [FinishOut(reason, usage, truncated)];
    }

    method DropToolInputs()
      modifies this
      ensures State() == ForgetAll(old(State()), old(toolInputOrder))
    {
      var ids, i := toolInputOrder, 0;
      while i < |ids|
        invariant 0 <= i <= |ids|
        invariant ForgetAll(State(), ids[i..]) == ForgetAll(old(State()), ids)
      {
        assert ids[i..][1..] == ids[i + 1..];
        ForgetToolInput(ids[i]);
        i := i + 1;
      }
    }
  }
}
