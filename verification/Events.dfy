/** The data of internal/app/types.go and the pure functions of internal/app/events.go. */
module Events {
  import opened GoStrings

  // ------------------------------------------------------------ upstream data

  /** A decoded JSON value, as far as the gateway looks at one: null, a string, or anything else,
  which only matters through its JSON encoding. */
  datatype Json = Null | Text(text: string) | Other(encoded: Option<string>)

  /** An optional member of an event; JSON null and an absent member both decode to Null. */
  datatype Member = Member(present: bool, value: Json)

  datatype TokenDetails = TokenDetails(cacheRead: int, cacheWrite: int)

  datatype CCUsage = CCUsage(input: int, output: int, total: int, details: Option<TokenDetails>)

  datatype EventKind =
    | TextDelta | ReasoningDelta | ToolCallEvent
    | ToolInputStart | ToolInputDelta | ToolInputEnd | ToolInputAvailable | ToolError
    | FinishStep | FinishEvent | TextEndEvent | ReasoningEndEvent | ErrorEvent
    | OtherEvent(name: string)

  datatype Event = Event(
    kind: EventKind, id: string, toolCallId: string, text: string, delta: string, toolName: string,
    input: Member, args: Member, arguments: Member,
    finishReason: string, rawFinishReason: string,
    usage: Option<CCUsage>, totalUsage: Option<CCUsage>, error: string)

  /** JSON on strings: is a text one JSON object and nothing more, and how is it written again
  with its numbers kept as they are. */
  datatype Codec = Codec(isObject: string -> bool, canonical: string -> Option<string>)

  // -------------------------------------------------------------- OpenAI data

  datatype Source = Unknown | Authoritative

  datatype ToolCall = ToolCall(id: string, typ: string, name: string, arguments: string, source: Source)

  datatype Usage = Usage(prompt: int, completion: int, total: int, cached: Option<int>)

  datatype FinishReason = StopReason | ToolCallsReason | LengthReason | ContentFilterReason

  datatype EventError =
    | MissingToolCallId
    | MissingInput(id: string)
    | BadArguments(id: string)
    | MissingFunctionName(id: string)
    | UnsupportedType(id: string)
    | ArgumentsNotObject(id: string)
    | MissingToolInputId
    | EmptyToolInput(id: string)
    | MissingFinishReason
    | UnsupportedFinishReason(reason: string)
    | UpstreamError(message: string)
    | NoValidToolCalls

  // ---------------------------------------------------------- reading an event

  function EventText(ev: Event): string {
    if ev.text != "" then ev.text else ev.delta
  }

  function EventToolCallId(ev: Event): string {
    if ev.toolCallId != "" then ev.toolCallId else ev.id
  }

  predicate Given(m: Member) {
    m.present || !m.value.Null?
  }

  function EventToolInput(ev: Event): Option<Json> {
    if Given(ev.input) then Some(ev.input.value)
    else if Given(ev.args) then Some(ev.args.value)
    else if Given(ev.arguments) then Some(ev.arguments.value)
    else None
  }

  // normalizeToolInput
  function NormalizeToolInput(codec: Codec, raw: string): Option<string> {
    var text := TrimSpace(raw);
    if text != "" && codec.isObject(text) then Some(text) else None
  }

  // encodeToolCallArguments, with marshalToolInput for what is not a string
  function EncodeArguments(codec: Codec, input: Json): Option<string> {
    match input
    case Null => None
    case Text(text) => NormalizeToolInput(codec, text)
    case Other(encoded) =>
      if encoded.Some? && codec.isObject(encoded.value) then codec.canonical(encoded.value) else None
  }

  // validateToolCall
  function ToolCallProblem(codec: Codec, call: ToolCall): Option<EventError> {
    if Blank(call.id) then Some(MissingToolCallId)
    else if Blank(call.name) then Some(MissingFunctionName(call.id))
    else if call.typ != "function" then Some(UnsupportedType(call.id))
    else
      var arguments := TrimSpace(call.arguments);
      if HasPrefix(arguments, "{") && codec.isObject(arguments) then None
      else Some(ArgumentsNotObject(call.id))
  }

  predicate ValidToolCall(codec: Codec, call: ToolCall) {
    ToolCallProblem(codec, call).None?
  }

  // toolCallFromEvent
  function ToolCallFromEvent(codec: Codec, ev: Event): Result<ToolCall, EventError> {
    var id := EventToolCallId(ev);
    if Blank(id) then Err(MissingToolCallId)
    else match EventToolInput(ev) {
      case None => Err(MissingInput(id))
      case Some(input) =>
        match EncodeArguments(codec, input)
        case None => Err(BadArguments(id))
        case Some(arguments) =>
          var call := ToolCall(id, "function", ev.toolName, arguments, Authoritative);
          match ToolCallProblem(codec, call)
          case Some(problem) => Err(problem)
          case None => Ok(call)
    }
  }

  // normalizeFinishReason
  function NormalizeFinishReason(reason: string): Result<FinishReason, EventError> {
    var r := TrimSpace(reason);
    if r == "stop" || r == "end" || r == "end_turn" then Ok(StopReason)
    else if r == "tool-calls" || r == "tool_calls" || r == "tool_use" || r == "function_call" then Ok(ToolCallsReason)
    else if r == "max_tokens" || r == "max_output_tokens" || r == "length" then Ok(LengthReason)
    else if r == "content_filter" then Ok(ContentFilterReason)
    else if r == "" then Err(MissingFinishReason)
    else Err(UnsupportedFinishReason(reason))
  }

  // The finish reason a finish event reports.
  function FinishReasonOf(ev: Event): Result<FinishReason, EventError> {
    NormalizeFinishReason(if Blank(ev.finishReason) then ev.rawFinishReason else ev.finishReason)
  }

  // resolveFinishReason
  function ResolveFinishReason(upstream: FinishReason, hasToolCalls: bool, truncated: bool): FinishReason {
    if truncated then LengthReason
    else if upstream == ContentFilterReason then ContentFilterReason
    else if hasToolCalls then ToolCallsReason
    else upstream
  }

  // ------------------------------------------------- what a tool-call event means

  /** A member that is absent, or that is null without having been seen in the JSON text. */
  const ABSENT: Member := Member(false, Null)

  /** The member that carries the input of a call: the first of the three that is not absent. An
  explicit null counts as given. */
  predicate Deciding(ev: Event, m: Member) {
    && m != ABSENT
    && (m == ev.input || (ev.input == ABSENT && (m == ev.args || (ev.args == ABSENT && m == ev.arguments))))
  }

  predicate NoInput(ev: Event) {
    ev.input == ABSENT && ev.args == ABSENT && ev.arguments == ABSENT
  }

  /** A string is read as JSON text, anything else is written as JSON; null is no object. */
  predicate OneObject(codec: Codec, value: Json) {
    match value
    case Null => false
    case Text(text) => codec.isObject(TrimSpace(text))
    case Other(encoded) => encoded.Some? && codec.isObject(encoded.value)
  }

  /** What JSON guarantees of the two parameters: an object begins with a brace, white space around
  it does not matter, and writing it again gives an object. */
  ghost predicate JsonObjects(codec: Codec) {
    forall s :: JsonObject(codec, s)
  }

  predicate JsonObject(codec: Codec, s: string) {
    codec.isObject(s) ==>
      && HasPrefix(TrimSpace(s), "{") && codec.isObject(TrimSpace(s))
      && codec.canonical(s).Some? && codec.isObject(codec.canonical(s).value)
  }

  function CallIdOf(ev: Event): string {
    if ev.toolCallId == "" then ev.id else ev.toolCallId
  }

  /** An authoritative call is taken over as it came: its id, its name, and as its arguments the
  deciding member, a string without the white space around it and anything else written again. */
  lemma AuthoritativeCallIsExact(codec: Codec, ev: Event, m: Member)
    requires Deciding(ev, m) && ToolCallFromEvent(codec, ev).Ok?
    ensures
      var call := ToolCallFromEvent(codec, ev).value;
      && call.id == CallIdOf(ev) && call.name == ev.toolName && call.typ == "function" && call.source == Authoritative
      && ValidToolCall(codec, call) && codec.isObject(TrimSpace(call.arguments))
      && (match m.value
          case Null => false
          case Text(text) => call.arguments == TrimSpace(text)
          case Other(encoded) => encoded.Some? && Some(call.arguments) == codec.canonical(encoded.value))
  {
    hide TrimSpace;
  }

  /** Exactly when a tool-call event becomes a call, and why it does not when it does not. */
  lemma CallIsTakenExactlyWhen(codec: Codec, ev: Event)
    requires JsonObjects(codec)
    ensures
      var r, id := ToolCallFromEvent(codec, ev), CallIdOf(ev);
      && (r == Err(MissingToolCallId) <==> Blank(id))
      && (r == Err(MissingInput(id)) <==> !Blank(id) && NoInput(ev))
      && (r == Err(BadArguments(id)) <==> !Blank(id) && InputIs(codec, ev, false))
      && (r == Err(MissingFunctionName(id)) <==> !Blank(id) && InputIs(codec, ev, true) && Blank(ev.toolName))
      && (r.Ok? <==> !Blank(id) && InputIs(codec, ev, true) && !Blank(ev.toolName))
  {
    if NoInput(ev) {
      NoInputNoCall(codec, ev);
    } else {
      var m := if ev.input != ABSENT then ev.input else if ev.args != ABSENT then ev.args else ev.arguments;
      assert Deciding(ev, m);
      TakenWith(codec, ev, m);
      hide ToolCallFromEvent, OneObject, TrimSpace;
      assert forall ok :: InputIs(codec, ev, ok) <==> OneObject(codec, m.value) == ok;
    }
  }

  /** The deciding member is one JSON object, or is given but is not. */
  ghost predicate InputIs(codec: Codec, ev: Event, ok: bool) {
    exists m :: Deciding(ev, m) && OneObject(codec, m.value) == ok
  }

  lemma NoInputNoCall(codec: Codec, ev: Event)
    requires NoInput(ev)
    ensures
      ToolCallFromEvent(codec, ev)
        == Err(if Blank(CallIdOf(ev)) then MissingToolCallId else MissingInput(CallIdOf(ev)))
    ensures forall ok :: !InputIs(codec, ev, ok)
  {
    hide TrimSpace, OneObject;
  }

  lemma TakenWith(codec: Codec, ev: Event, m: Member)
    requires JsonObjects(codec) && Deciding(ev, m)
    ensures
      var r, id := ToolCallFromEvent(codec, ev), CallIdOf(ev);
      if Blank(id) then r == Err(MissingToolCallId)
      else if !OneObject(codec, m.value) then r == Err(BadArguments(id))
      else if Blank(ev.toolName) then r == Err(MissingFunctionName(id))
      else r.Ok?
  {
    hide TrimSpace;
    NothingTrimmed();
    match m.value {
      case Null =>
      case Text(text) =>
        assert JsonObject(codec, TrimSpace(text));
      case Other(encoded) =>
        if encoded.Some? {
          assert JsonObject(codec, encoded.value);
          assert codec.canonical(encoded.value).Some? ==> JsonObject(codec, codec.canonical(encoded.value).value);
        }
    }
  }

  lemma NothingTrimmed()
    ensures TrimSpace("") == ""
  {
  }

  // The finish reason an event gives, without the white space around it: its own, or the raw one.
  function ReasonWord(ev: Event): string {
    var own, raw := TrimSpace(ev.finishReason), TrimSpace(ev.rawFinishReason);
    if own == "" then raw else own
  }

  /** Which words of the upstream mean which reason; any other word, and none, is an error. */
  lemma FinishReasonWords(ev: Event)
    ensures
      var r, word := FinishReasonOf(ev), ReasonWord(ev);
      && (r == Ok(StopReason) <==> word in ["stop", "end", "end_turn"])
      && (r == Ok(ToolCallsReason) <==> word in ["tool-calls", "tool_calls", "tool_use", "function_call"])
      && (r == Ok(LengthReason) <==> word in ["max_tokens", "max_output_tokens", "length"])
      && (r == Ok(ContentFilterReason) <==> word in ["content_filter"])
      && (r == Err(MissingFinishReason) <==> word == "")
      && (r.Err? && word != "" ==> r.error.UnsupportedFinishReason? && TrimSpace(r.error.reason) == word)
  {
    hide TrimSpace;
  }

  // ------------------------------------------------------------ deduplication

  function Rank(source: Source): nat {
    match source case Unknown => 0 case Authoritative => 1
  }

  // Position of the kept call with this id, or the number of kept calls. A call without an id
  // is never found.
  function FindCall(kept: seq<ToolCall>, id: string): (i: nat)
    ensures i <= |kept|
    ensures i < |kept| ==> kept[i].id == id && id != ""
    ensures forall j :: 0 <= j < i ==> kept[j].id != id || id == ""
  {
    if kept == [] || (kept[0].id != "" && kept[0].id == id) then 0 else 1 + FindCall(kept[1..], id)
  }

  function AddCall(kept: seq<ToolCall>, candidate: ToolCall): seq<ToolCall> {
    var i := FindCall(kept, candidate.id);
    if i == |kept| then kept + [candidate]
    else if Rank(candidate.source) > Rank(kept[i].source) then kept[i := candidate]
    else kept
  }

  predicate SameCall(kept: ToolCall, candidate: ToolCall) {
    kept.id != "" && kept.id == candidate.id
  }

  /** One more candidate: it is appended unless its id is kept already; then it takes the place of
  the first call with that id if it is authoritative and that call is not, and else is dropped. */
  lemma AddCallMeaning(kept: seq<ToolCall>, candidate: ToolCall, i: nat)
    ensures
      (forall j :: 0 <= j < |kept| ==> !SameCall(kept[j], candidate)) ==>
        AddCall(kept, candidate) == kept + [candidate]
    ensures
      i < |kept| && SameCall(kept[i], candidate) && (forall j :: 0 <= j < i ==> !SameCall(kept[j], candidate)) ==>
        AddCall(kept, candidate)
          == if candidate.source.Authoritative? && kept[i].source.Unknown? then kept[i := candidate] else kept
  {
    var found := FindCall(kept, candidate.id);
    assert found < |kept| ==> SameCall(kept[found], candidate);
  }

  /** toolCallDeduper. */
  class ToolCallDeduper {
    var kept: seq<ToolCall>

    constructor ()
      ensures kept == []
    {
      kept := [];
    }

    method Add(candidate: ToolCall) returns (added: bool)
      modifies this
      ensures kept == AddCall(old(kept), candidate)
      ensures added <==> FindCall(old(kept), candidate.id) == |old(kept)|
    {
      var i := 0;
      while i < |kept|
        invariant 0 <= i <= |kept| && kept == old(kept)
        invariant forall j :: 0 <= j < i ==> kept[j].id == "" || kept[j].id != candidate.id
      {
        var existing := kept[i];
        if existing.id != "" && existing.id == candidate.id {
          if Rank(candidate.source) > Rank(existing.source) {
            kept := kept[i := candidate];
          }
          return false;
        }
        i := i + 1;
      }
      kept := kept + [candidate];
      return true;
    }
  }

  // What the deduper is for, without saying how it works: the first call of each id, in order.
  predicate Repeated(calls: seq<ToolCall>, i: nat)
    requires i < |calls|
  {
    exists j :: 0 <= j < i && calls[j].id == calls[i].id
  }

  function FirstPerId(calls: seq<ToolCall>): (firsts: seq<ToolCall>)
    ensures |firsts| <= |calls|
  {
    if calls == [] then []
    else
      var n := |calls| - 1;
      var before := FirstPerId(calls[..n]);
      if Repeated(calls, n) then before else before + [calls[n]]
  }

  predicate DistinctIds(calls: seq<ToolCall>) {
    forall i, j :: 0 <= i < j < |calls| ==> calls[i].id != calls[j].id
  }

  predicate HasId(calls: seq<ToolCall>, id: string) {
    exists i :: 0 <= i < |calls| && calls[i].id == id
  }

  // Calls as tool-call events produce them: with an id, and authoritative.
  predicate Identified(calls: seq<ToolCall>) {
    forall i :: 0 <= i < |calls| ==> calls[i].id != "" && calls[i].source == Authoritative
  }

  predicate AllValid(codec: Codec, calls: seq<ToolCall>) {
    forall i :: 0 <= i < |calls| ==> ValidToolCall(codec, calls[i])
  }

  lemma HasIdSnoc(calls: seq<ToolCall>, call: ToolCall, id: string)
    ensures HasId(calls + [call], id) <==> HasId(calls, id) || call.id == id
  {
    var all := calls + [call];
    assert all[|calls|] == call;
    assert forall i :: 0 <= i < |calls| ==> all[i] == calls[i];
  }

  lemma FirstPerIdSnoc(calls: seq<ToolCall>, call: ToolCall)
    ensures FirstPerId(calls + [call]) ==
      if HasId(calls, call.id) then FirstPerId(calls) else FirstPerId(calls) + [call]
  {
    var all := calls + [call];
    assert all[..|calls|] == calls;
    assert forall i :: 0 <= i < |calls| ==> all[i] == calls[i];
    assert Repeated(all, |calls|) <==> HasId(calls, call.id);
  }

  /** FirstPerId keeps calls of the list only, every id once and none lost. */
  lemma {:induction false} FirstPerIdMeaning(calls: seq<ToolCall>)
    ensures DistinctIds(FirstPerId(calls))
    ensures forall c :: c in FirstPerId(calls) ==> c in calls
    ensures forall id :: HasId(calls, id) <==> HasId(FirstPerId(calls), id)
    decreases |calls|
  {
    if calls != [] {
      var n := |calls| - 1;
      var front, last := calls[..n], calls[n];
      assert calls == front + [last];
      FirstPerIdMeaning(front);
      FirstPerIdSnoc(front, last);
      forall id ensures HasId(calls, id) <==> HasId(FirstPerId(calls), id) {
        HasIdSnoc(front, last, id);
        HasIdSnoc(FirstPerId(front), last, id);
      }
    }
  }

  /** The places in `calls` of the calls that FirstPerId keeps. */
  ghost predicate FirstPlaces(calls: seq<ToolCall>, at: seq<nat>) {
    && (forall i :: 0 <= i < |at| ==> at[i] < |calls| && !Repeated(calls, at[i]))
    && (forall i, j :: 0 <= i < j < |at| ==> at[i] < at[j])
    && (forall k :: 0 <= k < |calls| && !Repeated(calls, k) ==> k in at)
  }

  /** What FirstPerId keeps is kept in first-seen order: each kept call is the earliest with its id,
  every earliest call is kept, and they stand in the order of their places in the list. */
  lemma {:induction false} FirstPerIdOrder(calls: seq<ToolCall>) returns (at: seq<nat>)
    ensures FirstPlaces(calls, at) && |at| == |FirstPerId(calls)|
    ensures forall i :: 0 <= i < |at| ==> FirstPerId(calls)[i] == calls[at[i]]
    decreases |calls|
  {
    if calls == [] {
      at := [];
    } else {
      var n := |calls| - 1;
      var front := calls[..n];
      at := FirstPerIdOrder(front);
      assert forall k :: 0 <= k < n ==> front[k] == calls[k];
      assert forall k :: 0 <= k < n ==> (Repeated(front, k) <==> Repeated(calls, k));
      if !Repeated(calls, n) {
        at := at + [n];
      }
    }
  }

  lemma KeptAreValid(codec: Codec, calls: seq<ToolCall>)
    requires AllValid(codec, calls)
    ensures AllValid(codec, FirstPerId(calls))
  {
    FirstPerIdMeaning(calls);
    var kept := FirstPerId(calls);
    forall i | 0 <= i < |kept| ensures ValidToolCall(codec, kept[i]) {
      assert kept[i] in calls;
    }
  }

  lemma FindCallMeaning(kept: seq<ToolCall>, id: string)
    requires id != ""
    ensures FindCall(kept, id) < |kept| <==> HasId(kept, id)
  {
    assert FindCall(kept, id) < |kept| ==> kept[FindCall(kept, id)].id == id;
  }

  /** The deduper, fed with calls from tool-call events, holds the first call of each id. */
  lemma AddCallIsFirstPerId(calls: seq<ToolCall>, call: ToolCall)
    requires Identified(calls) && call.id != "" && call.source == Authoritative
    ensures AddCall(FirstPerId(calls), call) == FirstPerId(calls + [call])
    ensures Identified(calls + [call])
  {
    hide FirstPerId;
    FirstPerIdMeaning(calls);
    FirstPerIdSnoc(calls, call);
    FindCallMeaning(FirstPerId(calls), call.id);
    var i := FindCall(FirstPerId(calls), call.id);
    if i < |FirstPerId(calls)| {
      assert FirstPerId(calls)[i] in calls;
    }
  }
}
