/** The request conversion of internal/app/cc.go: chat messages become upstream messages, and tool
results get the name of the call they answer. */
module Messages {
  import opened GoStrings

  datatype Role = System | Developer | Assistant | Tool | Other(name: string)

  datatype ContentPart = TextPart(text: string) | ImagePart(url: Option<string>) | OtherPart(typ: string)

  /** Message content is a string, a list of parts, or null. */
  datatype Content = Content(text: Option<string>, parts: seq<ContentPart>)

  datatype RequestCall = RequestCall(id: string, name: string, arguments: string)

  datatype Message = Message(
    role: Role, content: Content, reasoning: string, toolCalls: seq<RequestCall>, toolCallId: string, name: string)

  datatype CCRole = UserRole | AssistantRole | ToolRole

  datatype CCPart =
    | Reasoning(text: string)
    | Text(text: string)
    | Image(mediaType: string, data: string)
    | ToolCallPart(id: string, name: string, input: string)
    | ToolResult(id: string, name: string, output: string)

  datatype CCMessage = CCMessage(role: CCRole, content: seq<CCPart>)

  datatype RequestError =
    | MissingToolCallId
    | UnresolvedToolName(id: string)
    | UnsupportedToolResult(typ: string)
    | MissingImageUrl
    | BadImageUrl(url: string)
    | UnsupportedContent(typ: string)
    | MissingCallId
    | MissingCallName(id: string)
    | BadArguments(id: string)

  /** JSON and data URLs: is a text one JSON object, and what does an image URL hold. */
  datatype Codec = Codec(isObject: string -> bool, parseDataUrl: string -> Option<(string, string)>)

  // --------------------------------------------------------------- one message

  predicate Extracted(m: Message) {
    m.role.System? || m.role.Developer?
  }

  // roleToCC
  function RoleToCC(role: Role): CCRole {
    match role
    case Assistant => AssistantRole
    case Tool => ToolRole
    case _ => UserRole
  }

  // PlainText
  function PlainText(c: Content): string {
    if c.text.Some? then c.text.value else TextOf(c.parts)
  }

  function TextOf(parts: seq<ContentPart>): string {
    if parts == [] then ""
    else (if parts[0].TextPart? then parts[0].text else "") + TextOf(parts[1..])
  }

  // validateToolInputObject
  function CallInput(codec: Codec, arguments: string): Option<string> {
    var trimmed := TrimSpace(arguments);
    var text := if trimmed == "" then "{}" else trimmed;
    if codec.isObject(text) then Some(text) else None
  }

  function PartToCC(codec: Codec, p: ContentPart): Result<seq<CCPart>, RequestError> {
    match p
    case TextPart(text) => Ok(if text != "" then [Text(text)] else [])
    case ImagePart(url) =>
      if url.None? || url.value == "" then Err(MissingImageUrl)
      else
        (match codec.parseDataUrl(url.value)
         case None => Err(BadImageUrl(url.value))
         case Some(image) => Ok([Image(image.0, image.1)]))
    case OtherPart(typ) => Err(UnsupportedContent(typ))
  }

  function PartsToCC(codec: Codec, parts: seq<ContentPart>): Result<seq<CCPart>, RequestError> {
    if parts == [] then Ok([])
    else
      var n := |parts| - 1;
      match PartsToCC(codec, parts[..n])
      case Err(e) => Err(e)
      case Ok(before) =>
        match PartToCC(codec, parts[n])
        case Err(e) => Err(e)
        case Ok(more) => Ok(before + more)
  }

  function CallToCC(codec: Codec, c: RequestCall): Result<CCPart, RequestError> {
    if c.id == "" then Err(MissingCallId)
    else if c.name == "" then Err(MissingCallName(c.id))
    else match CallInput(codec, c.arguments) {
      case None => Err(BadArguments(c.id))
      case Some(input) => Ok(ToolCallPart(c.id, c.name, input))
    }
  }

  function CallsToCC(codec: Codec, calls: seq<RequestCall>): Result<seq<CCPart>, RequestError> {
    if calls == [] then Ok([])
    else
      var n := |calls| - 1;
      match CallsToCC(codec, calls[..n])
      case Err(e) => Err(e)
      case Ok(before) =>
        match CallToCC(codec, calls[n])
        case Err(e) => Err(e)
        case Ok(part) => Ok(before + [part])
  }

  // The first part of a tool result that is not text.
  function NonTextPart(parts: seq<ContentPart>): Option<string> {
    if parts == [] then None
    else match parts[0] {
      case TextPart(_) => NonTextPart(parts[1..])
      case ImagePart(_) => Some("image_url")
      case OtherPart(typ) => Some(typ)
    }
  }

  function ToolResultToCC(m: Message, name: string): Result<seq<CCPart>, RequestError> {
    if m.toolCallId == "" then Err(MissingToolCallId)
    else if name == "" then Err(UnresolvedToolName(m.toolCallId))
    else match NonTextPart(m.content.parts) {
      case Some(typ) => Err(UnsupportedToolResult(typ))
      case None => Ok([ToolResult(m.toolCallId, name, PlainText(m.content))])
    }
  }

  function PlainMessageToCC(codec: Codec, m: Message): Result<seq<CCPart>, RequestError> {
    var reasoning := if m.role.Assistant? && m.reasoning != "" then [Reasoning(m.reasoning)] else [];
    var text := if m.content.text.Some? && m.content.text.value != "" then [Text(m.content.text.value)] else [];
    match PartsToCC(codec, m.content.parts)
    case Err(e) => Err(e)
    case Ok(parts) =>
      match CallsToCC(codec, m.toolCalls)
      case Err(e) => Err(e)
      case Ok(calls) => Ok(reasoning + text + parts + calls)
  }

  // contentToCC, with the name the message carries or was given
  function ContentToCC(codec: Codec, m: Message, name: string): Result<seq<CCPart>, RequestError> {
    if m.role.Tool? then ToolResultToCC(m, name) else PlainMessageToCC(codec, m)
  }

  // ------------------------------------------------------------ the whole history

  type Names = map<string, string>

  // The names an assistant message adds.
  function AddNames(names: Names, calls: seq<RequestCall>): Names {
    if calls == [] then names
    else
      var n := |calls| - 1;
      var before := AddNames(names, calls[..n]);
      if calls[n].id != "" && calls[n].name != "" then before[calls[n].id := calls[n].name] else before
  }

  function NamesAfter(msgs: seq<Message>): Names {
    if msgs == [] then map[]
    else
      var n := |msgs| - 1;
      if msgs[n].role.Assistant? then AddNames(NamesAfter(msgs[..n]), msgs[n].toolCalls) else NamesAfter(msgs[..n])
  }

  function NameGiven(names: Names, m: Message): string {
    if m.role.Tool? && m.name == "" then (if m.toolCallId in names then names[m.toolCallId] else "") else m.name
  }

  function Convert(codec: Codec, msgs: seq<Message>): Result<seq<CCMessage>, RequestError> {
    if msgs == [] then Ok([])
    else
      var n := |msgs| - 1;
      match Convert(codec, msgs[..n])
      case Err(e) => Err(e)
      case Ok(out) =>
        if Extracted(msgs[n]) then Ok(out)
        else match ContentToCC(codec, msgs[n], NameGiven(NamesAfter(msgs), msgs[n])) {
          case Err(e) => Err(e)
          case Ok(content) => Ok(out + [CCMessage(RoleToCC(msgs[n].role), content)])
        }
  }

  // ------------------------------------------------------------------ the methods

  /** contentToCC. */
  method ContentOf(codec: Codec, m: Message) returns (r: Result<seq<CCPart>, RequestError>)
    ensures r == ContentToCC(codec, m, m.name)
  {
    if m.role.Tool? {
      r := ToolResultOf(m);
    } else {
      r := PlainContentOf(codec, m);
    }
  }

  method ToolResultOf(m: Message) returns (r: Result<seq<CCPart>, RequestError>)
    ensures r == ToolResultToCC(m, m.name)
  {
    if m.toolCallId == "" {
      return Err(MissingToolCallId);
    }
    if m.name == "" {
      return Err(UnresolvedToolName(m.toolCallId));
    }
    var i := 0;
    while i < |m.content.parts|
      invariant 0 <= i <= |m.content.parts|
      invariant NonTextPart(m.content.parts) == NonTextPart(m.content.parts[i..])
    {
      assert m.content.parts[i..][1..] == m.content.parts[i + 1..];
      match m.content.parts[i] {
        case TextPart(_) =>
        case ImagePart(_) => return Err(UnsupportedToolResult("image_url"));
        case OtherPart(typ) => return Err(UnsupportedToolResult(typ));
      }
      i := i + 1;
    }
    return Ok([ToolResult(m.toolCallId, m.name, PlainText(m.content))]);
  }

  method PlainContentOf(codec: Codec, m: Message) returns (r: Result<seq<CCPart>, RequestError>)
    ensures r == PlainMessageToCC(codec, m)
  {
    hide PartToCC, CallToCC;
    var parts: seq<CCPart> := [];
    if m.role.Assistant? && m.reasoning != "" {
      parts := [Reasoning(m.reasoning)];
    }
    if m.content.text.Some? && m.content.text.value != "" {
      parts := parts + [Text(m.content.text.value)];
    }
    ghost var head := parts;
    ghost var more: seq<CCPart> := [];
    var i := 0;
    while i < |m.content.parts|
      invariant 0 <= i <= |m.content.parts|
      invariant PartsToCC(codec, m.content.parts[..i]) == Ok(more)
      invariant parts == head + more
    {
      assert m.content.parts[..i + 1][..i] == m.content.parts[..i];
      var part := PartToCC(codec, m.content.parts[i]);
      if part.Err? {
        PartsStop(codec, m.content.parts, i + 1);
        return Err(part.error);
      }
      more := more + part.value;
      parts := parts + part.value;
      i := i + 1;
    }
    assert m.content.parts[..i] == m.content.parts;
    ghost var calls: seq<CCPart> := [];
    i := 0;
    while i < |m.toolCalls|
      invariant 0 <= i <= |m.toolCalls|
      invariant CallsToCC(codec, m.toolCalls[..i]) == Ok(calls)
      invariant parts == head + more + calls
    {
      assert m.toolCalls[..i + 1][..i] == m.toolCalls[..i];
      var part := CallToCC(codec, m.toolCalls[i]);
      if part.Err? {
        CallsStop(codec, m.toolCalls, i + 1);
        return Err(part.error);
      }
      calls := calls + [part.value];
      parts := parts + [part.value];
      i := i + 1;
    }
    assert m.toolCalls[..i] == m.toolCalls;
    return Ok(parts);
  }

  lemma PartsStop(codec: Codec, parts: seq<ContentPart>, i: nat)
    requires i <= |parts| && PartsToCC(codec, parts[..i]).Err?
    ensures PartsToCC(codec, parts) == PartsToCC(codec, parts[..i])
  {
    if i == |parts| {
      assert parts[..i] == parts;
    } else {
      var n := |parts| - 1;
      assert parts[..n][..i] == parts[..i];
      PartsStop(codec, parts[..n], i);
    }
  }

  lemma CallsStop(codec: Codec, calls: seq<RequestCall>, i: nat)
    requires i <= |calls| && CallsToCC(codec, calls[..i]).Err?
    ensures CallsToCC(codec, calls) == CallsToCC(codec, calls[..i])
  {
    if i == |calls| {
      assert calls[..i] == calls;
    } else {
      var n := |calls| - 1;
      assert calls[..n][..i] == calls[..i];
      CallsStop(codec, calls[..n], i);
    }
  }

  lemma ConvertStop(codec: Codec, msgs: seq<Message>, i: nat)
    requires i <= |msgs| && Convert(codec, msgs[..i]).Err?
    ensures Convert(codec, msgs) == Convert(codec, msgs[..i])
  {
    if i == |msgs| {
      assert msgs[..i] == msgs;
    } else {
      var n := |msgs| - 1;
      assert msgs[..n][..i] == msgs[..i];
      ConvertStop(codec, msgs[..n], i);
    }
  }

  /** messagesToCC, with its map of tool names. */
  method MessagesToCC(codec: Codec, msgs: seq<Message>) returns (r: Result<seq<CCMessage>, RequestError>)
    ensures r == Convert(codec, msgs)
  {
    var out: seq<CCMessage> := [];
    var toolNames: Names := map[];
    var i := 0;
    while i < |msgs|
      invariant 0 <= i <= |msgs|
      invariant Convert(codec, msgs[..i]) == Ok(out)
      invariant toolNames == NamesAfter(msgs[..i])
    {
      assert msgs[..i + 1][..i] == msgs[..i];
      var m := msgs[i];
      if !Extracted(m) {
        if m.role.Assistant? {
          var j := 0;
          ghost var before := toolNames;
          while j < |m.toolCalls|
            invariant 0 <= j <= |m.toolCalls|
            invariant toolNames == AddNames(before, m.toolCalls[..j])
          {
            assert m.toolCalls[..j + 1][..j] == m.toolCalls[..j];
            var tc := m.toolCalls[j];
            if tc.id != "" && tc.name != "" {
              toolNames := toolNames[tc.id := tc.name];
            }
            j := j + 1;
          }
          assert m.toolCalls[..j] == m.toolCalls;
        }
        if m.role.Tool? && m.name == "" {
          m := m.(name := if m.toolCallId in toolNames then toolNames[m.toolCallId] else "");
        }
        var content := ContentOf(codec, m);
        if content.Err? {
          ConvertStop(codec, msgs, i + 1);
          return Err(content.error);
        }
        out := out + [CCMessage(RoleToCC(m.role), content.value)];
      }
      i := i + 1;
    }
    assert msgs[..i] == msgs;
    return Ok(out);
  }

  // ------------------------------------------------------ what tool results carry

  /** The name of the last call with this id in a list of calls. */
  function LastCallName(calls: seq<RequestCall>, id: string): Option<string> {
    if calls == [] then None
    else
      var n := |calls| - 1;
      if calls[n].id == id && id != "" && calls[n].name != "" then Some(calls[n].name)
      else LastCallName(calls[..n], id)
  }

  /** The name of the latest assistant call with this id in a history. */
  function LatestName(msgs: seq<Message>, id: string): Option<string> {
    if msgs == [] then None
    else
      var n := |msgs| - 1;
      var here := if msgs[n].role.Assistant? then LastCallName(msgs[n].toolCalls, id) else None;
      if here.Some? then here else LatestName(msgs[..n], id)
  }

  function Found(names: Names, id: string): Option<string> {
    if id in names then Some(names[id]) else None
  }

  lemma {:induction false} AddNamesMeaning(names: Names, calls: seq<RequestCall>, id: string)
    ensures Found(AddNames(names, calls), id)
      == if LastCallName(calls, id).Some? then LastCallName(calls, id) else Found(names, id)
  {
    if calls != [] {
      AddNamesMeaning(names, calls[..|calls| - 1], id);
    }
  }

  /** The map of names always answers with the latest call. */
  lemma {:induction false} NamesAreLatest(msgs: seq<Message>, id: string)
    ensures Found(NamesAfter(msgs), id) == LatestName(msgs, id)
    ensures LatestName(msgs, id).Some? ==> LatestName(msgs, id).value != "" && id != ""
  {
    if msgs != [] {
      var n := |msgs| - 1;
      NamesAreLatest(msgs[..n], id);
      if msgs[n].role.Assistant? {
        AddNamesMeaning(NamesAfter(msgs[..n]), msgs[n].toolCalls, id);
        LastCallNameNotEmpty(msgs[n].toolCalls, id);
      }
    }
  }

  lemma {:induction false} LastCallNameNotEmpty(calls: seq<RequestCall>, id: string)
    ensures LastCallName(calls, id).Some? ==> LastCallName(calls, id).value != "" && id != ""
  {
    if calls != [] {
      LastCallNameNotEmpty(calls[..|calls| - 1], id);
    }
  }

  /** The messages that are converted, in order. */
  function Visible(msgs: seq<Message>): seq<nat> {
    if msgs == [] then []
    else
      var n := |msgs| - 1;
      Visible(msgs[..n]) + if Extracted(msgs[n]) then [] else [n]
  }

  lemma {:induction false} VisibleMeaning(msgs: seq<Message>)
    ensures forall j :: 0 <= j < |Visible(msgs)| ==>
      Visible(msgs)[j] < |msgs| && msgs[Visible(msgs)[j]].role !in {System, Developer}
    ensures forall i, j :: 0 <= i < j < |Visible(msgs)| ==> Visible(msgs)[i] < Visible(msgs)[j]
  {
    if msgs != [] {
      var n := |msgs| - 1;
      var before := Visible(msgs[..n]);
      VisibleMeaning(msgs[..n]);
      assert forall j :: 0 <= j < |before| ==> before[j] < n && Visible(msgs)[j] == before[j];
    }
  }

  lemma {:induction false} VisibleIsComplete(msgs: seq<Message>, k: nat)
    requires k < |msgs| && msgs[k].role !in {System, Developer}
    ensures k in Visible(msgs)
  {
    var n := |msgs| - 1;
    if k < n {
      VisibleIsComplete(msgs[..n], k);
    }
  }

  // A call of an earlier message is found in the output before the result that answers it.
  predicate OffersCall(parts: seq<CCPart>, id: string, name: string) {
    exists p :: p in parts && p.ToolCallPart? && p.id == id && p.name == name
  }

  predicate OffersCallBefore(out: seq<CCMessage>, j: nat, id: string, name: string)
    requires j <= |out|
  {
    exists i :: 0 <= i < j && out[i].role == AssistantRole && OffersCall(out[i].content, id, name)
  }

  lemma {:induction false} CallsOffered(codec: Codec, calls: seq<RequestCall>, id: string)
    requires CallsToCC(codec, calls).Ok? && LastCallName(calls, id).Some?
    ensures OffersCall(CallsToCC(codec, calls).value, id, LastCallName(calls, id).value)
  {
    hide CallInput;
    var n := |calls| - 1;
    var parts := CallsToCC(codec, calls).value;
    assert parts == CallsToCC(codec, calls[..n]).value + [parts[|parts| - 1]];
    if calls[n].id == id && calls[n].name != "" {
      assert parts[|parts| - 1] in parts;
    } else {
      CallsOffered(codec, calls[..n], id);
      var p :| p in CallsToCC(codec, calls[..n]).value && p.ToolCallPart? && p.id == id
        && p.name == LastCallName(calls, id).value;
      assert p in parts;
    }
  }

  lemma MessageOffers(codec: Codec, m: Message, name: string, id: string)
    requires m.role.Assistant? && ContentToCC(codec, m, name).Ok? && LastCallName(m.toolCalls, id).Some?
    ensures OffersCall(ContentToCC(codec, m, name).value, id, LastCallName(m.toolCalls, id).value)
  {
    CallsOffered(codec, m.toolCalls, id);
    var calls := CallsToCC(codec, m.toolCalls).value;
    var p :| p in calls && p.ToolCallPart? && p.id == id && p.name == LastCallName(m.toolCalls, id).value;
    assert p in ContentToCC(codec, m, name).value;
  }

  /** A known name has been offered as a tool call by the output so far. */
  lemma {:induction false} LatestNameIsOffered(codec: Codec, msgs: seq<Message>, id: string)
    requires Convert(codec, msgs).Ok? && LatestName(msgs, id).Some?
    ensures
      var out := Convert(codec, msgs).value;
      OffersCallBefore(out, |out|, id, LatestName(msgs, id).value)
  {
    hide ContentToCC;
    var n := |msgs| - 1;
    var out, before := Convert(codec, msgs).value, Convert(codec, msgs[..n]).value;
    if msgs[n].role.Assistant? && LastCallName(msgs[n].toolCalls, id).Some? {
      MessageOffers(codec, msgs[n], NameGiven(NamesAfter(msgs), msgs[n]), id);
      assert out[|before|].role == AssistantRole;
    } else {
      LatestNameIsOffered(codec, msgs[..n], id);
      assert before <= out;
    }
  }

  // ------------------------------------------------ what a message's content becomes

  predicate ShownPart(p: ContentPart) {
    p.ImagePart? || (p.TextPart? && p.text != "")
  }

  /** The places of the content parts that are shown: the images, and the texts that are not empty. */
  function Shown(parts: seq<ContentPart>): (places: seq<nat>)
    ensures forall i :: 0 <= i < |places| ==> places[i] < |parts|
  {
    if parts == [] then []
    else
      var n := |parts| - 1;
      Shown(parts[..n]) + if ShownPart(parts[n]) then [n] else []
  }

  lemma {:induction false} ShownMeaning(parts: seq<ContentPart>)
    ensures forall i, j :: 0 <= i < j < |Shown(parts)| ==> Shown(parts)[i] < Shown(parts)[j]
    ensures forall k :: 0 <= k < |parts| ==> (k in Shown(parts) <==> ShownPart(parts[k]))
  {
    if parts != [] {
      var n := |parts| - 1;
      ShownMeaning(parts[..n]);
      var before := Shown(parts[..n]);
      assert forall i :: 0 <= i < |before| ==> before[i] < n;
    }
  }

  /** A text is shown as itself, an image as what its data URL holds. */
  predicate ShownAs(codec: Codec, p: ContentPart, c: CCPart) {
    match p
    case TextPart(text) => c == Text(text)
    case ImagePart(url) => url.Some? && c.Image? && codec.parseDataUrl(url.value) == Some((c.mediaType, c.data))
    case OtherPart(_) => false
  }

  // The arguments of a call as JSON text; none at all are an empty object.
  function ArgumentText(call: RequestCall): string {
    if Blank(call.arguments) then "{}" else TrimSpace(call.arguments)
  }

  predicate AllShown(codec: Codec, parts: seq<ContentPart>, out: seq<CCPart>) {
    var shown := Shown(parts);
    |out| == |shown| && forall i :: 0 <= i < |shown| ==> ShownAs(codec, parts[shown[i]], out[i])
  }

  predicate AllCalled(calls: seq<RequestCall>, out: seq<CCPart>) {
    && |out| == |calls|
    && forall i :: 0 <= i < |calls| ==> out[i] == ToolCallPart(calls[i].id, calls[i].name, ArgumentText(calls[i]))
  }

  /** The content of a message that is no tool result: the reasoning of an assistant, the string
  content, the parts that are shown, and the calls, each if there is one, in this order. */
  ghost predicate Composed(codec: Codec, m: Message, content: seq<CCPart>) {
    var reasoning := if m.role.Assistant? && m.reasoning != "" then [Reasoning(m.reasoning)] else [];
    var text := if m.content.text.Some? && m.content.text.value != "" then [Text(m.content.text.value)] else [];
    exists parts, calls ::
      && AllShown(codec, m.content.parts, parts) && AllCalled(m.toolCalls, calls)
      && content == reasoning + text + parts + calls
  }

  lemma {:induction false} PartsAreShown(codec: Codec, parts: seq<ContentPart>)
    requires PartsToCC(codec, parts).Ok?
    ensures AllShown(codec, parts, PartsToCC(codec, parts).value)
  {
    if parts != [] {
      var n := |parts| - 1;
      PartsAreShown(codec, parts[..n]);
      var before, shown := PartsToCC(codec, parts[..n]).value, Shown(parts[..n]);
      assert PartsToCC(codec, parts).value == before + PartToCC(codec, parts[n]).value;
      assert forall i :: 0 <= i < |shown| ==> parts[..n][shown[i]] == parts[shown[i]];
    }
  }

  lemma {:induction false} CallsAreShown(codec: Codec, calls: seq<RequestCall>)
    requires CallsToCC(codec, calls).Ok?
    ensures AllCalled(calls, CallsToCC(codec, calls).value)
  {
    hide TrimSpace;
    if calls != [] {
      var n := |calls| - 1;
      CallsAreShown(codec, calls[..n]);
      assert CallsToCC(codec, calls).value == CallsToCC(codec, calls[..n]).value + [CallToCC(codec, calls[n]).value];
    }
  }

  lemma PlainIsComposed(codec: Codec, m: Message)
    requires PlainMessageToCC(codec, m).Ok?
    ensures Composed(codec, m, PlainMessageToCC(codec, m).value)
  {
    hide PartsToCC, CallsToCC, AllShown, AllCalled;
    PartsAreShown(codec, m.content.parts);
    CallsAreShown(codec, m.toolCalls);
  }

  /** The text of a content is its string, or else what its text parts say, one after another. */
  lemma PlainTextMeaning(c: Content, before: seq<ContentPart>, p: ContentPart, after: seq<ContentPart>)
    ensures c.text.Some? ==> PlainText(c) == c.text.value
    ensures c.text.None? && c.parts == [] ==> PlainText(c) == ""
    ensures c.text.None? && c.parts == before + ([p] + after) ==>
      PlainText(c) == TextOf(before) + ((if p.TextPart? then p.text else "") + TextOf(after))
  {
    assert ([p] + after)[1..] == after;
    TextOfConcat(before, [p] + after);
  }

  lemma {:induction false} TextOfConcat(a: seq<ContentPart>, b: seq<ContentPart>)
    ensures TextOf(a + b) == TextOf(a) + TextOf(b)
    decreases |a|
  {
    if a == [] {
      assert a + b == b;
    } else {
      assert (a + b)[1..] == a[1..] + b;
      TextOfConcat(a[1..], b);
    }
  }

  // What the message at one place of the history becomes.
  ghost predicate Rendered(codec: Codec, msgs: seq<Message>, k: nat, out: seq<CCMessage>, j: nat)
    requires k < |msgs| && j < |out|
  {
    var m := msgs[k];
    && (out[j].role == ToolRole <==> m.role.Tool?)
    && (out[j].role == AssistantRole <==> m.role.Assistant?)
    && (!m.role.Tool? ==> Composed(codec, m, out[j].content))
    && (m.role.Tool? ==>
      && m.toolCallId != ""
      && (if m.name != "" then out[j].content == [ToolResult(m.toolCallId, m.name, PlainText(m.content))]
          else
            && LatestName(msgs[..k], m.toolCallId).Some?
            && out[j].content
              == [ToolResult(m.toolCallId, LatestName(msgs[..k], m.toolCallId).value, PlainText(m.content))]
            && OffersCallBefore(out, j, m.toolCallId, LatestName(msgs[..k], m.toolCallId).value)))
  }

  // The last message of a history that converts.
  lemma LastRendered(codec: Codec, msgs: seq<Message>)
    requires msgs != [] && Convert(codec, msgs).Ok? && !Extracted(msgs[|msgs| - 1])
    ensures
      var out := Convert(codec, msgs).value;
      out != [] && Rendered(codec, msgs, |msgs| - 1, out, |out| - 1)
  {
    var n := |msgs| - 1;
    var m := msgs[n];
    var out, before := Convert(codec, msgs).value, Convert(codec, msgs[..n]).value;
    if m.role.Tool? && m.name == "" {
      NamesAreLatest(msgs[..n], m.toolCallId);
      LatestNameIsOffered(codec, msgs[..n], m.toolCallId);
      assert before <= out;
    } else if !m.role.Tool? {
      hide Composed, PlainMessageToCC;
      PlainIsComposed(codec, m);
    }
  }

  lemma RenderedStays(codec: Codec, msgs: seq<Message>, k: nat, out: seq<CCMessage>, j: nat, more: seq<Message>,
        outMore: seq<CCMessage>)
    requires k < |msgs| && j < |out| && Rendered(codec, msgs, k, out, j) && msgs <= more && out <= outMore
    ensures Rendered(codec, more, k, outMore, j)
  {
    assert more[..k] == msgs[..k];
  }

  /** Tool results are always resolvable. When the conversion succeeds, the output has one message
  for each message that is not a system or developer message, in order and with its role; every
  tool result without a name of its own carries the name of the latest preceding assistant call
  with its id, and a tool-call part with that id and name comes earlier in the output. */
  lemma {:induction false} ToolResultsResolve(codec: Codec, msgs: seq<Message>)
    requires Convert(codec, msgs).Ok?
    ensures
      var out, visible := Convert(codec, msgs).value, Visible(msgs);
      && |out| == |visible|
      && forall j :: 0 <= j < |out| ==> visible[j] < |msgs| && Rendered(codec, msgs, visible[j], out, j)
  {
    if msgs != [] {
      hide ContentToCC, LatestName, Rendered, RoleToCC;
      var n := |msgs| - 1;
      ToolResultsResolve(codec, msgs[..n]);
      var out, before := Convert(codec, msgs).value, Convert(codec, msgs[..n]).value;
      var visible, earlier := Visible(msgs), Visible(msgs[..n]);
      assert before <= out && earlier <= visible;
      forall j | 0 <= j < |out| ensures visible[j] < |msgs| && Rendered(codec, msgs, visible[j], out, j) {
        if j < |before| {
          RenderedStays(codec, msgs[..n], earlier[j], before, j, msgs, out);
        } else {
          LastRendered(codec, msgs);
        }
      }
    }
  }

  /** A message converts on its own: everything contentToCC asks for, with the history only needed
  for the name of a tool result. */
  predicate Convertible(codec: Codec, msgs: seq<Message>, k: nat)
    requires k < |msgs|
  {
    var m := msgs[k];
    if m.role.Tool? then
      && m.toolCallId != "" && (m.name != "" || LatestName(msgs[..k], m.toolCallId).Some?)
      && forall i :: 0 <= i < |m.content.parts| ==> m.content.parts[i].TextPart?
    else
      && (forall i :: 0 <= i < |m.content.parts| ==> GoodPart(codec, m.content.parts[i]))
      && (forall i :: 0 <= i < |m.toolCalls| ==> GoodCall(codec, m.toolCalls[i]))
  }

  /** A text, or an image whose URL is there and holds an image. */
  predicate GoodPart(codec: Codec, p: ContentPart) {
    || p.TextPart?
    || (p.ImagePart? && p.url.Some? && p.url.value != "" && codec.parseDataUrl(p.url.value).Some?)
  }

  /** A call with an id, a name, and one JSON object as its arguments. */
  predicate GoodCall(codec: Codec, c: RequestCall) {
    c.id != "" && c.name != "" && codec.isObject(ArgumentText(c))
  }

  lemma {:induction false} NonTextPartMeaning(parts: seq<ContentPart>)
    ensures NonTextPart(parts).None? <==> forall i :: 0 <= i < |parts| ==> parts[i].TextPart?
  {
    if parts != [] {
      NonTextPartMeaning(parts[1..]);
      assert forall i :: 0 < i < |parts| ==> parts[i] == parts[1..][i - 1];
    }
  }

  lemma {:induction false} PartsConvertible(codec: Codec, parts: seq<ContentPart>)
    ensures PartsToCC(codec, parts).Ok? <==> forall i :: 0 <= i < |parts| ==> GoodPart(codec, parts[i])
  {
    if parts != [] {
      var n := |parts| - 1;
      PartsConvertible(codec, parts[..n]);
      assert forall i :: 0 <= i < n ==> parts[..n][i] == parts[i];
    }
  }

  lemma {:induction false} CallsConvertible(codec: Codec, calls: seq<RequestCall>)
    ensures CallsToCC(codec, calls).Ok? <==> forall i :: 0 <= i < |calls| ==> GoodCall(codec, calls[i])
  {
    hide TrimSpace;
    if calls != [] {
      var n := |calls| - 1;
      CallsConvertible(codec, calls[..n]);
      assert forall i :: 0 <= i < n ==> calls[..n][i] == calls[i];
    }
  }

  lemma LastConvertible(codec: Codec, msgs: seq<Message>)
    requires msgs != []
    ensures
      var n := |msgs| - 1;
      ContentToCC(codec, msgs[n], NameGiven(NamesAfter(msgs), msgs[n])).Ok? <==> Convertible(codec, msgs, n)
  {
    hide GoodPart, GoodCall, PartsToCC, CallsToCC;
    var n := |msgs| - 1;
    NamesAreLatest(msgs[..n], msgs[n].toolCallId);
    NonTextPartMeaning(msgs[n].content.parts);
    PartsConvertible(codec, msgs[n].content.parts);
    CallsConvertible(codec, msgs[n].toolCalls);
  }

  /** Exactly when a history converts: every message in it that is not a system or developer
  message does. */
  lemma {:induction false} ConvertsExactlyWhen(codec: Codec, msgs: seq<Message>)
    ensures Convert(codec, msgs).Ok?
      <==> forall k :: 0 <= k < |msgs| && !Extracted(msgs[k]) ==> Convertible(codec, msgs, k)
  {
    hide ContentToCC, Convertible;
    if msgs != [] {
      var n := |msgs| - 1;
      ConvertsExactlyWhen(codec, msgs[..n]);
      LastConvertible(codec, msgs);
      forall k | 0 <= k < n ensures Convertible(codec, msgs[..n], k) <==> Convertible(codec, msgs, k) {
        SameConvertible(codec, msgs, n, k);
      }
    }
  }

  lemma SameConvertible(codec: Codec, msgs: seq<Message>, n: nat, k: nat)
    requires k < n <= |msgs|
    ensures Convertible(codec, msgs[..n], k) <==> Convertible(codec, msgs, k)
  {
    assert msgs[..n][..k] == msgs[..k];
  }

  // -------------------------------------------------------- why a history is refused

  /** What is wrong with one part, with one call, and with one tool result. */
  predicate PartFault(codec: Codec, p: ContentPart, e: RequestError) {
    match e
    case MissingImageUrl => p.ImagePart? && (p.url.None? || p.url.value == "")
    case BadImageUrl(url) => p == ImagePart(Some(url)) && url != "" && codec.parseDataUrl(url).None?
    case UnsupportedContent(typ) => p == OtherPart(typ)
    case _ => false
  }

  predicate CallFault(codec: Codec, c: RequestCall, e: RequestError) {
    match e
    case MissingCallId => c.id == ""
    case MissingCallName(id) => c.id == id && id != "" && c.name == ""
    case BadArguments(id) => c.id == id && id != "" && c.name != "" && !codec.isObject(ArgumentText(c))
    case _ => false
  }

  ghost predicate ResultFault(m: Message, known: bool, e: RequestError) {
    match e
    case MissingToolCallId => m.toolCallId == ""
    case UnresolvedToolName(id) => m.toolCallId == id && id != "" && !known
    case UnsupportedToolResult(typ) =>
      m.toolCallId != "" && known && exists i: nat :: FirstNonText(m.content.parts, i, typ)
    case _ => false
  }

  ghost predicate FirstNonText(parts: seq<ContentPart>, i: nat, typ: string) {
    && i < |parts| && (forall j :: 0 <= j < i ==> parts[j].TextPart?)
    && (parts[i] == OtherPart(typ) || (parts[i].ImagePart? && typ == "image_url"))
  }

  predicate FirstBadPart(codec: Codec, parts: seq<ContentPart>, i: nat, e: RequestError) {
    i < |parts| && (forall j :: 0 <= j < i ==> GoodPart(codec, parts[j])) && PartFault(codec, parts[i], e)
  }

  predicate FirstBadCall(codec: Codec, calls: seq<RequestCall>, i: nat, e: RequestError) {
    i < |calls| && (forall j :: 0 <= j < i ==> GoodCall(codec, calls[j])) && CallFault(codec, calls[i], e)
  }

  /** Why the message at one place of the history is refused: the first fault of a tool result, or the
  first faulty part, or, when all parts are good, the first faulty call. */
  ghost predicate Faulty(codec: Codec, msgs: seq<Message>, k: nat, e: RequestError)
    requires k < |msgs|
  {
    var m := msgs[k];
    if m.role.Tool? then ResultFault(m, m.name != "" || LatestName(msgs[..k], m.toolCallId).Some?, e)
    else PlainFault(codec, m, e)
  }

  ghost predicate PlainFault(codec: Codec, m: Message, e: RequestError) {
    || (exists i: nat :: FirstBadPart(codec, m.content.parts, i, e))
    || ((forall j :: 0 <= j < |m.content.parts| ==> GoodPart(codec, m.content.parts[j]))
        && exists i: nat :: FirstBadCall(codec, m.toolCalls, i, e))
  }

  lemma {:induction false} NonTextIsFirst(parts: seq<ContentPart>)
    requires NonTextPart(parts).Some?
    ensures exists i: nat :: FirstNonText(parts, i, NonTextPart(parts).value)
    decreases |parts|
  {
    if parts[0].TextPart? {
      NonTextIsFirst(parts[1..]);
      var typ := NonTextPart(parts).value;
      var i: nat :| FirstNonText(parts[1..], i, typ);
      assert forall j :: 0 < j < |parts| ==> parts[j] == parts[1..][j - 1];
      assert FirstNonText(parts, i + 1, typ);
    } else {
      assert FirstNonText(parts, 0, NonTextPart(parts).value);
    }
  }

  lemma {:induction false} PartsFail(codec: Codec, parts: seq<ContentPart>)
    requires PartsToCC(codec, parts).Err?
    ensures exists i: nat :: FirstBadPart(codec, parts, i, PartsToCC(codec, parts).error)
  {
    var n, e := |parts| - 1, PartsToCC(codec, parts).error;
    if PartsToCC(codec, parts[..n]).Err? {
      PartsFail(codec, parts[..n]);
      var i: nat :| FirstBadPart(codec, parts[..n], i, e);
      assert FirstBadPart(codec, parts, i, e) by {
        assert forall j :: 0 <= j < n ==> parts[..n][j] == parts[j];
      }
    } else {
      PartsConvertible(codec, parts[..n]);
      assert forall j :: 0 <= j < n ==> parts[..n][j] == parts[j];
      assert FirstBadPart(codec, parts, n, e);
    }
  }

  lemma {:induction false} CallsFail(codec: Codec, calls: seq<RequestCall>)
    requires CallsToCC(codec, calls).Err?
    ensures exists i: nat :: FirstBadCall(codec, calls, i, CallsToCC(codec, calls).error)
  {
    hide TrimSpace;
    var n, e := |calls| - 1, CallsToCC(codec, calls).error;
    if CallsToCC(codec, calls[..n]).Err? {
      CallsFail(codec, calls[..n]);
      var i: nat :| FirstBadCall(codec, calls[..n], i, e);
      assert FirstBadCall(codec, calls, i, e) by {
        assert forall j :: 0 <= j < n ==> calls[..n][j] == calls[j];
      }
    } else {
      CallsConvertible(codec, calls[..n]);
      assert forall j :: 0 <= j < n ==> calls[..n][j] == calls[j];
      assert FirstBadCall(codec, calls, n, e);
    }
  }

  lemma ResultFails(m: Message, name: string)
    requires ToolResultToCC(m, name).Err?
    ensures ResultFault(m, name != "", ToolResultToCC(m, name).error)
  {
    if m.toolCallId != "" && name != "" {
      NonTextIsFirst(m.content.parts);
    }
  }

  lemma PlainFails(codec: Codec, m: Message)
    requires PlainMessageToCC(codec, m).Err?
    ensures PlainFault(codec, m, PlainMessageToCC(codec, m).error)
  {
    hide PartsToCC, CallsToCC, GoodPart, GoodCall, PartFault, CallFault;
    if PartsToCC(codec, m.content.parts).Err? {
      PartsFail(codec, m.content.parts);
    } else {
      PartsConvertible(codec, m.content.parts);
      CallsFail(codec, m.toolCalls);
    }
  }

  lemma LastFails(codec: Codec, msgs: seq<Message>, n: nat, e: RequestError)
    requires |msgs| == n + 1 && ContentToCC(codec, msgs[n], NameGiven(NamesAfter(msgs), msgs[n])) == Err(e)
    ensures Faulty(codec, msgs, n, e)
  {
    hide ResultFault, PlainFault, ToolResultToCC, PlainMessageToCC, LatestName;
    var m, name := msgs[n], NameGiven(NamesAfter(msgs), msgs[n]);
    if m.role.Tool? {
      NamesAreLatest(msgs[..n], m.toolCallId);
      ResultFails(m, name);
    } else {
      PlainFails(codec, m);
    }
  }

  /** A history that is refused is refused for its first message that cannot be converted, and for
  the first thing that is wrong with that message. */
  lemma {:induction false} RefusedForTheFirstFault(codec: Codec, msgs: seq<Message>)
    requires Convert(codec, msgs).Err?
    ensures exists k: nat ::
      && k < |msgs| && !Extracted(msgs[k]) && Faulty(codec, msgs, k, Convert(codec, msgs).error)
      && forall j :: 0 <= j < k && !Extracted(msgs[j]) ==> Convertible(codec, msgs, j)
  {
    hide ContentToCC, Convertible, Faulty;
    var n, e := |msgs| - 1, Convert(codec, msgs).error;
    if Convert(codec, msgs[..n]).Err? {
      RefusedForTheFirstFault(codec, msgs[..n]);
      var k: nat :| k < n && !Extracted(msgs[..n][k]) && Faulty(codec, msgs[..n], k, e)
        && forall j :: 0 <= j < k && !Extracted(msgs[..n][j]) ==> Convertible(codec, msgs[..n], j);
      SameFault(codec, msgs, n, k, e);
      forall j | 0 <= j < k && !Extracted(msgs[j]) ensures Convertible(codec, msgs, j) {
        SameConvertible(codec, msgs, n, j);
      }
    } else {
      LastFails(codec, msgs, n, e);
      ConvertsExactlyWhen(codec, msgs[..n]);
      forall j | 0 <= j < n && !Extracted(msgs[j]) ensures Convertible(codec, msgs, j) {
        SameConvertible(codec, msgs, n, j);
      }
    }
  }

  lemma SameFault(codec: Codec, msgs: seq<Message>, n: nat, k: nat, e: RequestError)
    requires k < n <= |msgs|
    ensures Faulty(codec, msgs[..n], k, e) <==> Faulty(codec, msgs, k, e)
  {
    assert msgs[..n][..k] == msgs[..k];
  }
}
