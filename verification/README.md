# Verified model of the cmdcode2api gateway core

cmdcode2api is a gateway: it takes OpenAI-style chat requests, sends them to an upstream service
under one of several accounts, and turns the upstream's event stream back into OpenAI answers,
streamed or not. This project models the logic of that path in Dafny and proves what it promises.

| file | models |
|---|---|
| `GoStrings.dfy`, `GoTime.dfy` | the Go string helpers in use: TrimSpace, Join, Split, FormatInt, Atoi; and the times |
| `Sse.dfy`, `SseReader.dfy`, `SseProperties.dfy`, `SseRoundTrip.dfy` | the event-stream parser: specification, reading loop, properties, round trip |
| `Events.dfy`, `Normalizer.dfy` | upstream events, tool-call deduplication, the event normalizer |
| `Handlers.dfy`, `Outcomes.dfy` | the streaming writer and the non-streaming collector, and what a turn means |
| `HandlerProperties.dfy`, `Agreement.dfy`, `Pipeline.dfy` | the stream's grammar, calls, usage; agreement of the handlers; parser and handlers together |
| `Messages.dfy` | request conversion and the names of tool results |
| `Accounts.dfy`, `Failover.dfy`, `FailoverProperties.dfy`, `RetryAfter.dfy` | account pool, retry loop, rotation, reset times |
| `RateLimit.dfy` | the limiter of failed admin logins |
| `UsageAccounting.dfy`, `UsageByRequest.dfy`, `UsageInterleaving.dfy` | usage counters: conservation, what each counter holds, and overlapping requests |
| `LogRing.dfy` | the in-memory log tail |

How it is built. Code that changes state in place is a class or a method with loops, and its
contract equates the new state with a specification function of the old one; the lemmas then speak
about those functions over all inputs and all runs. A Go string is a sequence of bytes, one `char`
each. JSON decoding, data-URL parsing, ANSI stripping and the wording of errors are function
parameters (`Codec`, `Gateway`, `Ring.strip`), so every statement holds for any of them; the few that
need a fact about JSON objects say so (`JsonObjects`). The clock
is an argument of every step, the upstream an oracle (`World`), and a callback of the parser is a
function of the events delivered so far. Every mutex-protected call is one atomic step; where the
code does more outside the lock, the steps are modelled apart (`UsageInterleaving.dfy`) or the
README says that they are not.

What holds only under a condition, with the condition proved exact:

- The two handlers agree about a response if the turn breaks or nothing that matters follows the
  finish event, and only then (`HandlersAgreeExactlyWhen`): after the finish event the collector
  still adds content and still fails, the stream does neither.
- A payload survives the event stream if it fits the size bound, no line of it ends in a carriage
  return, no line of it that is written without a space after the colon begins with one, and it is
  neither blank nor the end marker, and only then (`RoundTripExactly`); of the carriage returns at
  the end of a line up to two are lost.
- A line over 32 MiB ends the parse, but not always as the error that the comment at
  internal/app/cc.go:305-306 announces: the data pending before it is dispatched first, so its
  event is still delivered, cut short if the long line belonged to it, and a pending end marker
  ends the stream well. The parse fails for the length of the line exactly when nothing in the
  pending data stops it first (`OverLongLineEndsTheParse`; `MarkerBeforeOverLongLine` is a body that
  ends well).
- The parse is independent of the read buffer except when the body breaks while an event is pending
  (`GluingMattersExactlyWhen`).
- With at most c login attempts of a source under way at a time, at most 6 + 2c of them fail in ten
  minutes without a success (`FailuresAreBounded`), and so many can (`BoundIsReached`). Eight is the
  bound, and the fifteen minutes of a lockout promised at internal/app/ratelimit.go:16-18 are kept,
  exactly when attempts do not overlap (`EightIsTheBoundExactlyWhenSerial`,
  `LockoutsAreKeptExactlyWhenSerial`): a straggler that fails after the record's window lifts the
  lockout (`StragglerEndsTheLockout`), and nothing but that or a success does
  (`LockoutHoldsExactlyUntil`).
- The computed seconds reach an upstream reset time exactly when the wait plus a second stays in
  Duration range (`WaitReachesReset`). Beyond that the int64 sum wraps, the Retry-After comes out
  negative or zero, and the account cools down for the default minute only; so more than a minute
  before the reset time the account is left alone until then exactly when the sum is in range
  (`ResetIsHonouredExactlyWhen`).
- With m enabled accounts, all eligible, a Send that fails over every time without a 429 makes m
  attempts and visits all m accounts exactly when the m - 1 accounts from the cursor on are enabled
  (`SendVisitsAllExactlyWhen`); otherwise it tries one account twice and another not at all
  (`DisabledAccountsSkewTheRotation` is such a pool). Likewise Acquire gives an account its own
  share and that of the accounts directly before it that are not eligible
  (`AcquireSharesExactly`), which is an even share when all are eligible (`AcquireIsFair`).
- Usage is conserved when requests are recorded one after another. When they overlap with moves and
  drops it is conserved exactly when what came too late adds up to nothing; unless a request reports
  negative counts, that is exactly when no counter is added to after its record was dropped or that
  counter was merged away (`ConservationHoldsExactlyWhen`). In every case the missing counts are
  those additions (`InterleavedConservation`), and a request can be lost whole in this way
  (`DropLosesARequest`).
- A log poller sees each line once exactly when at most 500 lines are logged between its polls
  (`PollerSeesEachLineOnce`).

## Model

| member | source | states |
|---|---|---|
| SseReader.BufReader.ReadSseLine | internal/app/cc.go:315-330 | whatever the buffer size, the result is the whole line; it fails exactly when the line is longer than 32 MiB |
| SseReader.StreamParser.Dispatch | internal/app/cc.go:369-390 | the pending lines become no event, the end marker, a decoding failure, a refused or an accepted event, and are dropped |
| SseReader.StreamParser.TakeLine | internal/app/cc.go:394-438 | one line has the effect the specification gives it, and the byte count stays the total of the buffered lines and within the bound |
| SseReader.StreamParser.Parse | internal/app/cc.go:363-454 | the loop delivers the events and ends as the line-by-line specification says, for every body and every buffer size |
| Sse.CallbackOnlyCutsShort | internal/app/cc.go:386-388 | a callback cannot change which events there are: the parse is the free parse delivered one by one until the callback refuses |
| SseProperties.NoiseLineIsSkipped | internal/app/cc.go:405-418 | a comment or non-data field line leaves a running parse as it was exactly when it is within the bound, else the parse ends |
| SseProperties.OverLongLineEndsTheParse | internal/app/cc.go:392-443 | a line over the bound ends the parse after its pending event is delivered: as too long exactly when nothing in the pending data stops the parse first, well when that is the end marker |
| SseProperties.BrokenBodyEndsTheParse | internal/app/cc.go:440-443 | a body that breaks ends the parse with its own reason exactly when the pending data does not stop it first, which is dispatched unless the break came with the last line |
| SseRoundTrip.MarkerBeforeOverLongLine | internal/app/cc.go:380-443 | a body of the end marker and then any over-long line is parsed as a stream that ended well |
| SseProperties.SameSignificantLinesSameParse | internal/app/cc.go:392-438 | bodies whose lines differ by noise only are parsed alike |
| SseProperties.NoiseInsertion | internal/app/cc.go:405-418 | any number of complete comment, event, id and retry lines inserted at a line boundary change neither events nor end |
| SseProperties.LineEndsDoNotMatter | internal/app/cc.go:394 | LF and CRLF line ends may be exchanged freely |
| SseProperties.GluingMattersExactlyWhen | internal/app/cc.go:440-452 | whether a read error comes with the last line is visible exactly when the body breaks with an event pending |
| SseRoundTrip.FeedPayload | internal/app/cc.go:407-416 | a payload as data lines and a blank line is dispatched whole if it fits; otherwise the parse ends at its first line that does not, and the lines before an over-long one are dispatched as an event cut short |
| SseRoundTrip.RoundTrip | internal/app/cc.go:363-454 | payloads written as data lines, each line with or without a space after the colon, are delivered unchanged and in order, and the parse ends at the end of the body or at the end marker |
| SseRoundTrip.ParseVerbatim | internal/app/cc.go:363-454 | of payloads of any size, none of them blank or the end marker, arrive those before the first that does not fit, and what is cut short of that one |
| SseRoundTrip.ArrivesUnchanged | internal/app/cc.go:394 | a payload arrives as it was exactly when none of its lines ends in a carriage return and none written without a space begins with one |
| SseRoundTrip.FitsMeaning | internal/app/cc.go:412-415 | a payload fits exactly when no written line, and not all that arrives of its lines without their line feeds, is longer than 32 MiB |
| SseRoundTrip.RoundTripExactly | internal/app/cc.go:363-454 | the round trip works exactly when every payload fits, has no line ending in a carriage return and none written without a space that begins with one, and is neither blank nor the end marker |
| SseProperties.EndOfBodyFlushes | internal/app/cc.go:440-451 | the end of the body dispatches pending data as a blank line would |
| SseProperties.BareLineClosesThePendingEvent | internal/app/cc.go:419-429 | a bare line first dispatches the pending event |
| SseRoundTrip.BareLineIsAnEvent | internal/app/cc.go:419-438 | a bare JSON line is delivered like the same payload on a data line, with or without a space |
| Events.AuthoritativeCallIsExact | internal/app/events.go:308-368 | a tool call carries the event's id and name, and as arguments the first member given: a string trimmed, anything else written again as JSON |
| Events.CallIsTakenExactlyWhen | internal/app/events.go:308-368 | an event becomes a call exactly when it has an id, a name and one JSON object as its input, and which error it is for otherwise |
| Events.FinishReasonWords | internal/app/handler.go:461-476 | the words that mean each finish reason, the raw reason deciding when the own one is blank; any other word and none are errors |
| Events.AddCallMeaning | internal/app/events.go:376-387 | a candidate is appended unless its id is kept; then it replaces the first call with that id exactly if it is authoritative and that one is not |
| Events.ToolCallDeduper.Add | internal/app/events.go:376-387 | the kept calls after one more candidate, and whether it was new |
| Events.FirstPerIdMeaning | internal/app/events.go:374-376 | keeping the first call per id loses no id, repeats none and invents no call |
| Events.FirstPerIdOrder | internal/app/events.go:374-376 | the kept calls are exactly the earliest of their ids, in the order of their places in the list |
| Events.AddCallIsFirstPerId | internal/app/events.go:376-387 | the deduper, fed with authoritative calls, holds exactly the first call of each id in first-seen order |
| Normalizer.EventNormalizer.ConsumeEvent | internal/app/events.go:48-140 | one event changes the state and emits events or an error as specified |
| Normalizer.EventNormalizer.ApplyUsage | internal/app/events.go:160-181 | a usage record overwrites every usage field, cache details included |
| Normalizer.EventNormalizer.TrackToolInput | internal/app/events.go:185-191 | an id is registered on first sight only |
| Normalizer.EventNormalizer.ForgetToolInput | internal/app/events.go:193-201 | an id leaves the buffer and the order list |
| Normalizer.EventNormalizer.FinishToolInput | internal/app/events.go:203-228 | the buffered input is judged and dropped |
| Normalizer.ConsumeKeepsConsistency | internal/app/events.go:111-115 | the order list stays without duplicates and lists exactly the buffered ids; the finish event empties both |
| Normalizer.RunKeepsConsistency | internal/app/events.go:185-201 | the same in every run |
| Normalizer.ToolInputIsJudgedWhole | internal/app/events.go:203-228 | the deltas of a provisional input are put together, and found at fault at its end exactly when the whole is not one JSON object; then it is forgotten |
| Normalizer.ToolInputIsJudgedByItsEnd | internal/app/events.go:215-227 | without deltas the input member of the end event is judged, and its absence only when the input was announced |
| Normalizer.ProvisionalEffect | internal/app/events.go:63-87 | a start buffers its id, a delta adds its text, an end or an error takes the id out; the other ids keep text and place, and nothing else changes |
| Normalizer.ErasureChangesNothing | internal/app/events.go:63-87 | without provisional events a run emits the same events, ends in the same error and reports the same usage |
| Handlers.HandleStream | internal/app/handler.go:228-274 | the streaming handler sends the frames and records the counts of its specification, for every run |
| Handlers.StreamWriter.Emit | internal/app/handler.go:111-138 | one content frame, with the role if it is the first, and nothing for empty text or a closed stream |
| Handlers.StreamWriter.EmitCollectedToolCalls | internal/app/handler.go:148-169 | one frame per collected call, numbered from 0 |
| Handlers.StreamWriter.FinishTheStream | internal/app/handler.go:173-213 | calls, finish frame, usage frame and end marker at once, or a refusal with nothing written |
| Handlers.StreamWriter.FailTheStream | internal/app/handler.go:215-226 | one error frame and the end marker, unless the stream is closed |
| Handlers.StreamWriter.OnEvent | internal/app/handler.go:233-258 | the callback stops at the first refused event |
| Handlers.Collector.OnEvent | internal/app/handler.go:298-319 | the collector gathers content, calls and reason, and stops at the first refused event |
| Handlers.HandleNonStream | internal/app/handler.go:277-373 | the non-streaming handler answers and records as specified, for every run |
| Outcomes.QuietRun | internal/app/events.go:54-95 | before the turn ends the normalizer holds the first call of each id and the last step usage |
| Outcomes.FinishStepEffect | internal/app/events.go:96-130 | the finish event emits all kept calls and then one finish, with its own usage or the last one |
| Outcomes.CollectTail | internal/app/handler.go:302-318 | after the finish event the collector still adds content and fails at the first failing event, and nothing else changes |
| Outcomes.StreamTail | internal/app/handler.go:112-117 | after the end marker nothing is added to the stream |
| HandlerProperties.StreamClosedForm | internal/app/handler.go:91-275 | the whole stream is the content before the end of the turn and the rendering of how the turn came out, read off the events |
| HandlerProperties.StreamGrammar | internal/app/handler.go:91-275 | content frames, then numbered call frames, one finish, optional usage, end marker, or one error and end marker; role on the first frame only; a tool_calls finish has a call |
| HandlerProperties.ClientReceives | internal/app/handler.go:128-137 | what a client accumulates from the frames of any run |
| HandlerProperties.EmittedCalls | internal/app/handler.go:171-183 | the calls sent are the first of each id before the finish event, valid, distinct, in order; none without a finish |
| HandlerProperties.FinishReasonMeaning | internal/app/handler.go:443-459 | length exactly when the upstream reports length, a content filter likewise, else tool_calls exactly when calls are given |
| HandlerProperties.NothingAfterTheTurnCounts | internal/app/events.go:96-99 | whatever follows the end of the turn changes neither frames nor counts, so there is no second finish |
| HandlerProperties.UsageIsLastWriter | internal/app/events.go:88-130 | reported usage is the finish event's own, else the last step's before it, else zero |
| HandlerProperties.ProvisionalEventsNeverShow | internal/app/events.go:79-87 | without provisional events both handlers send and record the same |
| Agreement.CollectClosedForm | internal/app/handler.go:277-373 | the non-streaming answer to every run, read off the events |
| Agreement.HandlersAgreeExactlyWhen | internal/app/handler.go:277-373 | both fail or both give the same content, reasoning, calls, reason, usage and counts, exactly when the turn breaks or nothing that matters follows the finish event |
| Agreement.HandlersAgreeOnProperStreams | internal/app/handler.go:322-351 | they agree whenever only the end of the stream follows the finish event |
| Agreement.HandlersFailAlike | internal/app/handler.go:261-271 | a turn that breaks before an acceptable finish is reported as the same failure by both |
| Pipeline.StreamThroughTheParser | internal/app/handler.go:228-271 | parsing with the streaming callback comes to the streaming handler over all events of the body |
| Pipeline.CollectThroughTheParser | internal/app/handler.go:293-335 | the same for the non-streaming callback |
| Pipeline.NoiseReachesNobody | internal/app/cc.go:405-418 | noise lines in the body change what neither client gets |
| Messages.ContentOf | internal/app/cc.go:591-669 | one message converts to the specified parts or the specified error |
| Messages.ShownMeaning | internal/app/cc.go:622-648 | the content parts that appear in the converted message are the images and the non-empty texts, each once and in order |
| Messages.MessagesToCC | internal/app/cc.go:555-580 | the loop with its map of names computes the specified conversion |
| Messages.NamesAreLatest | internal/app/cc.go:562-568 | the map of names answers with the latest assistant call of an id |
| Messages.VisibleMeaning | internal/app/cc.go:558-561 | the converted messages are those that are not system or developer messages, in order |
| Messages.VisibleIsComplete | internal/app/cc.go:558-561 | and every such message is converted |
| Messages.ToolResultsResolve | internal/app/cc.go:569-577 | one output message per visible input in order, made of the reasoning of an assistant, the string content, the non-empty texts and the images, and the calls with their arguments; an unnamed tool result carries the latest preceding call's name, and a call part with that id and name comes earlier |
| Messages.ConvertsExactlyWhen | internal/app/cc.go:572-575 | conversion succeeds exactly when every visible message can be converted: a tool result with an id, a name and texts only; any other with texts and good images only, and calls with an id, a name and one JSON object |
| Messages.RefusedForTheFirstFault | internal/app/cc.go:591-669 | a refused history is refused for the first fault of its first message that cannot be converted |
| Messages.PlainTextMeaning | internal/app/types.go:80-91 | the text of a content is its string, or else its text parts one after another |
| Accounts.Account.RecordSuccess | internal/app/accounts.go:61-69 | a success clears the error fields and nothing else |
| Accounts.Account.RecordFailure | internal/app/accounts.go:71-93 | a 429 sets the cooldown, a 401 or 403 counts, and everything else stays |
| Accounts.AccountRemembers | internal/app/accounts.go:61-93 | over any outcomes: the number of failures, the last success, the last failure unless a success followed, the 401s and 403s since the last success, the cooldown of the last 429, and nothing else |
| Accounts.CooldownMeaning | internal/app/accounts.go:83-88 | the seconds of a positive Retry-After that fits a Duration, and one minute for anything that is no positive number |
| Accounts.AccountPool.Acquire | internal/app/accounts.go:177-195 | the picked account, or none, and the cursor one further |
| Accounts.PickMeaning | internal/app/accounts.go:186-194 | an account is found exactly when one is eligible, and it is the first one from the cursor on |
| Accounts.AccountPool.CountEnabled | internal/app/accounts.go:211-221 | the number of enabled accounts |
| Accounts.AccountPool.EarliestRateLimitWait | internal/app/accounts.go:334-353 | the loop computes the specified wait |
| Accounts.EarliestWaitIsExact | internal/app/accounts.go:334-353 | with all enabled accounts cooling the wait is positive, Acquire finds nobody before it is over and somebody when it is |
| Failover.SendRequest | internal/app/cc.go:206-256 | the retry loop gives the specified answer, account, pool and list of tried accounts |
| FailoverProperties.SendEndsAs | internal/app/cc.go:206-285 | which replies move on to the next account and which end a Send, with what answer and account, that it gives up only when its attempts are used up or nobody is eligible, and that every attempt is recorded on its account |
| FailoverProperties.SendTriesEveryEligibleAccountOnce | internal/app/cc.go:219-240 | with 429 failures only, attempts hit distinct accounts and an error comes only after every eligible one was tried |
| FailoverProperties.AcquireSharesExactly | internal/app/accounts.go:186-194 | while the same accounts stay eligible, k times n Acquire calls return an eligible account k times, and k times more for each account directly before it that is not eligible |
| FailoverProperties.AcquireIsFair | internal/app/accounts.go:186-194 | k times n Acquire calls over n eligible accounts return each account k times |
| FailoverProperties.SendVisitsEachAccountOnce | internal/app/cc.go:219-240 | with all accounts eligible and every attempt failing over, for whatever reasons, each account is visited exactly once |
| FailoverProperties.SendVisitsAllExactlyWhen | internal/app/cc.go:219-240 | with all m enabled accounts eligible and every attempt failing over without a 429, the m attempts are distinct, and equally reach every enabled account, exactly when the m - 1 accounts from the cursor on are enabled |
| FailoverProperties.DisabledAccountsSkewTheRotation | internal/app/accounts.go:186-194 | a pool in which one account is tried twice and an eligible one never |
| FailoverProperties.LimitedAnswerIsNearest | internal/app/cc.go:242-248 | the advertised Retry-After is the wait rounded to the nearest second |
| RetryAfter.ResetTimeIsNear | internal/app/cc.go:168-170 | the reset time is off by less than a nanosecond and the errors of decoding the number and of one multiplication |
| RetryAfter.RetryAfterComesFrom | internal/app/cc.go:128-187 | the header if there is one; else for a 429 the given reset time, or the one in the message, if it lies ahead |
| RetryAfter.WaitReachesReset | internal/app/cc.go:182-186 | the computed seconds reach the reset time and less than a second more, exactly when the sum stays in range |
| RetryAfter.ResetTimesAreHonoured | internal/app/accounts.go:83-88 | after a 429 with a reset time in range Acquire does not return the account before it, until another 429 of that account |
| RetryAfter.ResetIsHonouredExactlyWhen | internal/app/cc.go:182-186 | an account that hits its limit more than a minute before the reset time is not used before it, whatever else happens, exactly when the sum stays in range |
| GoStrings.TrimSpaceMeaning | internal/app/cc.go:376 | all the white space at both ends is taken off, and nothing else |
| GoStrings.AsciiSpaces | internal/app/cc.go:376 | the six ASCII characters that count as white space |
| GoStrings.AtoiAccepts | internal/app/accounts.go:85 | an optional sign, at least one digit and nothing else, within the int64 range |
| GoStrings.AtoiOfFormatInt | internal/app/accounts.go:85 | the seconds written into Retry-After are the seconds read back |
| RateLimit.Limiter.Allow | internal/app/ratelimit.go:36-56 | the answer and the record after an Allow |
| RateLimit.AllowMeaning | internal/app/ratelimit.go:36-56 | a source is refused exactly while its lockout runs, and told its end; the record is kept for the lockout, or for ten minutes without one |
| RateLimit.Limiter.Fail | internal/app/ratelimit.go:59-73 | the record after a failure |
| RateLimit.Limiter.Reset | internal/app/ratelimit.go:76-80 | a success forgets the record |
| RateLimit.SourcesAreIndependent | internal/app/ratelimit.go:36-80 | what is remembered of a source depends on its own calls only |
| RateLimit.FailuresAreBounded | internal/app/server.go:96-112 | with at most c attempts under way at a time, at most 6 + 2c fail in any ten minutes without a success |
| RateLimit.BoundIsReached | internal/app/ratelimit.go:59-73 | for every c there is a run with so many failures |
| RateLimit.EightIsTheBoundExactlyWhenSerial | internal/app/server.go:96-112 | eight failures bound every run exactly when attempts do not overlap |
| RateLimit.OverlappingAttemptsAreNotBounded | internal/app/server.go:96-112 | n attempts let in before the first of them fails can all fail in one instant |
| RateLimit.BoundPerSource | internal/app/server.go:94-115 | the bound for one source among many whose calls interleave |
| RateLimit.AtMostEightFailures | internal/app/ratelimit.go:59-73 | in any ten minutes without a success at most eight failures of serial attempts are admitted |
| RateLimit.AtMostEightPerSource | internal/app/server.go:94-115 | the same for one source among many whose calls interleave |
| RateLimit.FifthFailureLocks | internal/app/ratelimit.go:69-72 | the fifth failure of a record locks the source out for fifteen minutes |
| RateLimit.LockoutRejectsAttempts | internal/app/ratelimit.go:45-48 | a locked-out source whose attempts are serial is not admitted before the time |
| RateLimit.StragglerEndsTheLockout | internal/app/ratelimit.go:64-68 | a run with two overlapping attempts in which a source is let in before its lockout is over |
| RateLimit.LockoutsAreKeptExactlyWhenSerial | internal/app/ratelimit.go:45-48 | without a success no locked-out source is let in before its time, in every run exactly when attempts do not overlap |
| RateLimit.LockoutHoldsExactlyUntil | internal/app/ratelimit.go:59-80 | with overlapping attempts the lockout ends early exactly by a success or a failure after the record's window |
| UsageAccounting.UsageCounters.Add | internal/app/usage.go:43-53 | one request is added to a counter, negative cache counts excepted |
| UsageAccounting.UsageTracker.RecordFor | internal/app/usage.go:117-125 | the totals and the counters of the account and of the client key all gain the same |
| UsageAccounting.UsageTracker.Move | internal/app/usage.go:244-266 | an account's counters are renamed, or merged into the target's |
| UsageAccounting.UsageTracker.ForgetAccount | internal/app/usage.go:194-199 | an account's counters are dropped, nothing else |
| UsageAccounting.UsageTracker.ForgetClientKey | internal/app/usage.go:269-273 | a client key's counters are dropped, nothing else |
| UsageAccounting.MoveKeepsTheSum | internal/app/usage.go:244-266 | moving keeps the sum over all accounts, also when it merges |
| UsageAccounting.Conservation | internal/app/usage.go:117-273 | in every run the totals equal live plus dropped plus unassigned, for accounts and for client keys |
| UsageByRequest.CountersAreTheirRequests | internal/app/usage.go:43-273 | each of the five counters of an account or a client key is the sum of that number over the requests it was given or that were moved to it and not dropped since |
| UsageByRequest.TotalsAreAllRequests | internal/app/usage.go:73-83 | each of the five totals is the sum of that number over all requests |
| UsageInterleaving.InterleavedConservation | internal/app/usage.go:43-146 | in every interleaving of the single additions of overlapping requests with moves, merges and drops the totals equal live plus dropped plus unassigned plus in flight plus in transit plus what came too late |
| UsageInterleaving.ConservationHoldsExactlyWhen | internal/app/usage.go:43-146 | with nothing under way the serial law holds exactly when what came too late adds up to nothing; without negative counts, exactly when no addition came too late |
| UsageInterleaving.SerialStepsAreSerial | internal/app/usage.go:117-266 | taken without anything in between, the single steps of a request, of a move and of a drop can be taken and do to the counters and totals what the serial tracker does |
| UsageInterleaving.DropLosesARequest | internal/app/usage.go:117-125 | a reachable state in which a request is in the totals and nowhere else, because its account was dropped between its lookup and its additions |
| LogRing.Ring.Write | internal/app/logbuf.go:33-49 | a line that is not blank is appended to the log with the next number |
| LogRing.Ring.After | internal/app/logbuf.go:53-66 | exactly the logged lines above the given number among the last 500, oldest first, and the last number |
| LogRing.TailMeaning | internal/app/logbuf.go:53-66 | the answer is an end of the log and holds, of the last 500 lines, exactly those above the given number |
| LogRing.TrimNewlinesMeaning | internal/app/logbuf.go:33-49 | all line feeds at the end of what is written are cut off, and nothing else |
| LogRing.PollerSeesEachLineOnce | internal/app/logbuf.go:53-66 | a poller sees every line once, in order, exactly when it keeps up with the ring |

## Left out

- HTTP, headers, logging, CORS and the Web UI: plumbing around the modelled functions; of adminAuth only the order of its Allow, Fail and Reset calls is kept.
- JSON: decoding an event, being one JSON object and re-encoding are parameters; the names of event types are an enumeration, and a frame is a value without its constant id, object, model and time.
- Request fields other than messages (model name, tools, token budget, system text): table lookups and clamping.
- Config and usage files, OAuth, quota snapshots, model catalogue, client key pool, i18n: I/O or lookups; dropping an account also drops its quota snapshot, which is not modelled.
- Adding, removing, renaming and re-keying accounts: single-loop edits of the account list.
- SseReader.BufReader.ReadLine: library behaviour, written down from the bufio package; it assumes that a body that has ended or failed answers the same again.
- RetryAfter.ResetTimeIsNear: the overflow of seconds beyond int64 is not modelled, and the time scraped from the message text is a parameter.
- UsageAccounting.UsageTracker.RecordFor: one step, which is what the code comes to when requests do not overlap; UsageInterleaving takes it apart into the lookup and the single atomic additions. Counters are unbounded integers, so int64 wrap-around is not modelled.
- UsageAccounting.UsageTracker.Move: one step likewise; in UsageInterleaving the merge goes counter by counter.
- UsageInterleaving.InterleavedConservation: accounts and client keys are taken one at a time, each with every interleaving of its own steps; reading a snapshot in the middle of a run is not modelled.
- Normalizer.EventNormalizer.ApplyUsage: token counts are unbounded integers.
- LogRing.Ring.Write: the stripping of ANSI codes is a parameter.
- Failover.SendRequest: building the request body and its errors come before the modelled loop; no other request touches the pool meanwhile.
- Handlers.HandleStream: works on the events of the parsed body; the equivalence with the parser calling it back is Pipeline.StreamThroughTheParser.
