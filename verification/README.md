# DeepSeek Terminal gateway: a verified model

This project models the session gateway of DeepSeek Terminal and the terminal
client that talks to it, and proves what they guarantee under every
interleaving of prompts, cancels, approvals, closes and sweeps.

A terminal asks the gateway for a *session*, shows a pairing code, and waits
until a phone approves it. From then on it sends prompts. Each prompt is handled
by a *handler* that marks the session ACTIVE, lets a provider stream a
completion, writes the text as Server-Sent Events, and finally stores the
exchange, or forgets it. Sessions live in memory only and are destroyed when
they expire, when either side ends them, or when the client goes away.

## How the model is laid out

| files | what they hold |
|---|---|
| `Base`, `Protocol` | options, results, text concatenation; event payloads and what a provider returns |
| `Settings`, `PairCode` | generation settings from the approve request to the upstream body and the label; pairing codes |
| `Store` | what every manager operation does, as functions on a value: sessions, pairing-code index, cancel functions invoked |
| `Manager`, `Copies` | the manager as it is: a class with two maps over shared mutable `Session` objects, each with its history in a growable array; every method is proved to do to the value exactly what the `Store` operation says; and why histories are copied before they are handed out |
| `World`, `Invariant`, `Runs`, `Guarantees`, `CodeIndex`, `Reach` | any number of prompt handlers as program counters over one store, racing with all other requests; the inductive invariant; the guarantees over whole runs; when the pairing-code index finds a session; runs that show what can happen |
| `Handlers` | one handler in its sequential form, driving a `Manager` object |
| `Providers` | the DeepSeek and the mock provider loops against one contract, and that contract against the prompt protocol |
| `Json`, `Sse`, `SseLaws` | escaping and decoding of payloads; the event writer and reader; round trip, concatenation and truncation |
| `ClientPrompt`, `WholeResponse`, `ClientEnds` | the terminal's side of one prompt, on any prefix of a response; what it returns for a whole one, and exactly when it returns an error; exactly when an early end goes unnoticed |
| `RateLimit` | the creation limiter, filtering an array in place |
| `Repl` | the chat loop and the signal goroutine as two threads over shared atomics |

A manager method holds the manager's lock for its whole body, so it is one atomic
step. A handler is not: its calls, the deltas it writes and the moments at which
contexts end are separate steps, and anything can happen between them. Clock
readings, random draws, the provider's answers, the failure of writes and the
choice among ready channels are parameters or choices of the environment.
`World` carries history variables (ids ever used, answered prompts, the handler
that made a session ACTIVE, the time of the last touch), which no decision reads.

## Where the code and its documentation differ

- The comment on `createLimiter` says fixed window. The code keeps a sliding log,
  and `RateLimit` proves the sliding bound.
- The `Provider` interface promises a nil error and the finish reason "cancelled"
  for a cancelled call. The DeepSeek client passes its context to the request too, and
  returns the request's error as it is, so a call cancelled while it waits for the
  response fails. Once it has a stream it looks at its context only before a line and
  after a failed read, and replaces only "stop". From the inputs of a call,
  `Providers.ReportsCancelledIff` says exactly when it reports "cancelled" and
  `PromiseBrokenIff` when it breaks the promise; `CancelWhileWaiting`,
  `CancelCanReportLength`, `CancelCanReportStop` and `CancelCanFail` are calls that do.
  The mock looks only if it has a delay: `MockReportsCancelledIff`.
- The comment in `streamPrompt` says that a cancel keeps whatever was generated. That
  needs the provider call to succeed (`Guarantees.CancelKeepsWhatWasGenerated`);
  a cancel while it waits for the response leaves the client with an error event and
  the session without the prompt (`Reach.CancelCanForget`).
- Pairing codes may collide, and `Create` does not look. The index then stays
  sound but loses sessions: `Store.CollisionLosesSessions` is a concrete case in
  which a live session with a code of its own cannot be found any more.
  `CodeIndex.ListedIffUndisturbed` says exactly which sessions can be found, over
  every run, `Store.CreateKeepsCompleteIff` when a single creation is safe, and
  `CodeIndex.IndexIsExact` covers the runs in which all of them are.
- The event reader is simpler than section 9.2.6 of the WHATWG HTML standard: it
  trims all white space around values, dispatches what is pending at the end of
  the stream, and keeps the event name across a blank line without data. So
  reading two streams one after the other is not always the same as reading their
  concatenation; `SseLaws.ConcatenationIff` gives the exact condition.
- A terminal event is written even if the session was destroyed meanwhile, so a
  client can see `done` for an exchange that no session holds any more
  (`Reach.DoneCanComeTooLate`).
- The client's `Prompt` promises a finish reason, but returns neither a reason nor an
  error when a response ends early in the right place. `ClientEnds.SilentIff` gives
  the exact condition: the client has got a `done` with an empty reason; or the
  connection ends cleanly, no line it has got is too long, and everything before the
  cut is tokens, the cut being after the data line of one or before the colon of the
  next data line. A cut inside the data of any event is an error. `CutAfterToken` and
  `Guarantees.RefusedEndsSilently` are two such responses.
- Cancel calls of the terminal never exceed the prompts it has begun, but one can
  be sent before the Prompt call it is meant for (`Repl.CancelCanOvertakePrompt`);
  `Repl.CancelsNeverExceedPrompts` says exactly when.

## Model

| member | source | states |
|---|---|---|
| Guarantees.PromptIsTransaction | internal/gateway/handlers.go:188-275 | whatever happens between a handler's PreparePrompt and the action that ends its prompt, be it the manager call of its branch or the FailPrompt of a response that cannot be flushed, a session still live ends with the history it had before the prompt plus, exactly if the prompt was answered, the user message and the non-empty reply; if the client left, the session is gone |
| Guarantees.HistoryIsAnsweredPrompts | internal/session/manager.go:255-311 | in every reachable state a history is the concatenation of its answered prompts in order, one turn per handler, plus the pending user message of the one handler in flight while ACTIVE |
| Guarantees.HistoryIsWellShaped | internal/session/manager.go:267-311 | every assistant message directly follows a user message, and an ACTIVE history ends with a user message |
| Copies.PerformAll | internal/session/manager.go:113-115 | an array handed out as a copy of a history keeps its contents over any later calls of the manager, whatever they are |
| Copies.Perform | internal/session/manager.go:267-311 | one call of any manager method leaves every copy handed out before as it was, writes to nothing but the manager's own objects, forgets no object it ever created, and reaches none that was out of reach |
| Copies.ScrubbedForGood | internal/session/manager.go:355-377 | a session object that has left the manager stays out of reach and cleared of history, tokens, code and settings over any later calls |
| Copies.PrepareWithoutCopy | internal/session/manager.go:270-272 | without the copy, a FailPrompt and another PreparePrompt change what the first prompt's provider reads, exactly if the two prompts differ |
| Guarantees.CancelKeepsWhatWasGenerated | internal/gateway/handlers.go:266-270 | if a generation is cancelled before it times out, its provider succeeds and the client stays, the outcome is a cancelled prompt and, in a live session, the prompt and all the text generated are stored |
| Guarantees.RefusedEndsSilently | internal/gateway/handlers.go:219-223 | a prompt refused because its response cannot be flushed gives the terminal neither an error nor a finish reason |
| Guarantees.ReplyStandsInHistory | internal/session/manager.go:286-288 | in every later state of the run the prompt and reply of an answered prompt stand next to each other in the history of its session, if that is live |
| Guarantees.FramesMatchOutcome | internal/gateway/handlers.go:239-275 | a finished handler has attempted its token events and then exactly one terminal event: none if the client was found gone, an upstream_error with the provider's message, a generation_timeout, a done "cancelled", or a done with the provider's reason; a stored reply means every delta was written and is their concatenation |
| Guarantees.ContextsIff | internal/gateway/handlers.go:225-237 | in every reachable state a handler's client is gone, and its generation has timed out, if and only if a step of the run has made it so |
| Guarantees.AnsweredPromptIsStored | internal/gateway/handlers.go:266-274 | a reply that was applied is in the history of its session as the turn of that handler, as long as the session is live |
| Guarantees.ClientAgreesWithHistory | internal/client/transport.go:102-132 | end to end, for any run, any cut of the response, any end of the connection and any callback: the terminal hands on a prefix of the delivered deltas, and if it sees a done event, with or without a reason in it, it has handed on all of them, they concatenate to the reply, the reason is the one sent, it returns no error, and the exchange stands in the history of a live session |
| Guarantees.WholeResponseIsUnderstood | internal/client/transport.go:102-132 | for any run: from the whole response of a finished handler, if its frames fit, a terminal that takes every delta hands on all that were written, and for each outcome returns the reason meant and an error exactly for the error events |
| Guarantees.DestructionIsFinal | internal/session/manager.go:355-377 | an id that has left the session map never returns |
| Guarantees.CapacityHolds | internal/session/manager.go:73-98 | at most MaxSessions sessions and no more index entries than sessions in every reachable state, and the index is sound |
| Guarantees.CreatedIff | internal/session/manager.go:73-98 | a creation whose draws succeed adds a WAITING session if and only if the limit is not reached; as long as it lives the session has the drawn token and code, and its pairing expiry is the creation time plus the pairing timeout |
| Guarantees.CancelHitsCurrent | internal/session/manager.go:329-345 | whenever a step makes the manager invoke a cancel function, it is that of the handler generating now for the session the step names, and the step is a cancel, close, end or that handler's own end |
| Guarantees.CancelIff | internal/session/manager.go:329-366 | a step makes the manager invoke the cancel function registered in a session, once, if and only if it is a cancel of that session or destroys it |
| Guarantees.DeadlineIsLastTouch | internal/session/manager.go:269-309 | the idle deadline of a live session is the time of its last create, prepare, finish or fail plus the idle timeout |
| Guarantees.DeadlineMoves | internal/session/manager.go:184-205 | a step changes an idle deadline only by a prepare, finish or fail of that session; approval does not extend it |
| Guarantees.SweptIff | internal/session/manager.go:381-403 | a sweep destroys a session if and only if it is WAITING past its pairing expiry, or APPROVED and its last create, prepare, finish or fail is longer ago than the idle timeout; an ACTIVE one never |
| Guarantees.ApprovalIff | internal/session/manager.go:147-205 | a step approves a WAITING session if and only if it is a request that reaches it by its token or its listed code, no later than its pairing expiry, with valid settings, and a control token can be drawn; the session then has exactly these settings and that token, and is otherwise as it was |
| Guarantees.CredentialApproves | internal/session/manager.go:147-182 | the pairing token, if no other live session has it, and a listed code approve a WAITING session if and only if the request is in time, its settings are valid and the draw succeeds |
| Guarantees.ApprovedAtMostOnce | internal/session/manager.go:191-193 | over any run a session is approved at most once, by either credential |
| Guarantees.ApprovalIsFrozen | internal/session/manager.go:201-203 | from approval to destruction settings and control token are constant, the settings are valid and the token is not empty |
| Guarantees.EndNeedsToken | internal/session/manager.go:236-251 | an end request destroys a live session if and only if it bears the token issued at its approval; a WAITING session is never ended so |
| Guarantees.CloseEnds | internal/session/manager.go:349-377 | a close destroys the session it names, in any state, and no other |
| Guarantees.LabelDescribesPrompts | internal/gateway/handlers.go:247-251 | the label computed from an approved session's status describes the settings every later prompt of that session uses upstream, if the session is live when the handler reads them |
| CodeIndex.ListedIffUndisturbed | internal/session/manager.go:97-98 | over every run, a live session can be found by its code if and only if no other session with that code has been created or destroyed since its own creation |
| CodeIndex.StepListed | internal/session/manager.go:355-377 | one step unlists a surviving session exactly if it creates or destroys another one with its code, and no step lists it again |
| CodeIndex.IndexIsExact | internal/session/manager.go:174-181 | in every run where no session is created with a live code, looking up a code finds exactly the sessions a scan would find |
| CodeIndex.StepKeepsComplete | internal/session/manager.go:97-98 | no step but a colliding creation takes a live session out of the index |
| Runs.RunsKeepInv | internal/gateway/handlers.go:174-275 | the inductive invariant of sessions, handlers, index and invoked cancels holds in every state of every run |
| Runs.ActiveIffOneHandler | internal/session/manager.go:264-268 | a live session is ACTIVE exactly when some handler is between its PreparePrompt and its end, and never are there two |
| Runs.RegisteredCancelIsCurrent | internal/gateway/handlers.go:225-227 | the cancel function of a handler is registered in a live session if and only if the handler is generating for it, has called SetGenCancel, and has not been cancelled |
| Runs.CancelledAtMostOnce | internal/session/manager.go:338-343 | the manager invokes each cancel function at most once in a run |
| Runs.RunEvolves | internal/session/manager.go:184-377 | between any two points of a run ids are not reused, credentials and codes stay, answered prompts are only appended, and handlers keep their prompt, snapshot, written events and verdict |
| Invariant.KeepsInv | internal/gateway/handlers.go:174-275 | every enabled step of any handler, client, controller or the sweeper keeps the invariant |
| Handlers.UndisturbedPrompt | internal/gateway/handlers.go:225-275 | without interference the store after a prompt differs only in that session's history and deadline, by the whole exchange or nothing, or the session is gone and its cancel invoked |
| Handlers.HandlePrompt | internal/gateway/handlers.go:174-275 | which prompts are refused, with which status and code, no change and nothing written; what an unflushable response does; otherwise what the provider is asked, and: for a client that has gone the session is gone and only token events are written, whatever the provider returned; for one still there the session is APPROVED again, extended by the exchange if and only if the call succeeded in time, and the response ends with the event for what happened; and the whole new abstract store |
| Handlers.ReplyWasWritten | internal/gateway/handlers.go:239-245 | a reply is kept only if the connection has taken all its deltas, and it is their concatenation |
| Handlers.Prepare | internal/gateway/handlers.go:182-206 | the refusals of handlePrompt with their error codes, each leaving the store as it was; otherwise the prepared store and a copy of the history |
| Handlers.RefusalIsRefusedAs | internal/gateway/handlers.go:178-206 | a prompt is admitted if and only if it is not empty and its session APPROVED; otherwise bad_request, not_found, pairing_pending for WAITING or not_approved for ACTIVE, in that order |
| Handlers.StreamPrompt | internal/gateway/handlers.go:225-275 | registers the generation, asks the provider with the settings read then and the copied history; afterwards the session is gone if the client is, otherwise APPROVED with the reply or without the prompt, and the events are the tokens and the terminal event for client, result and context |
| Handlers.OnDelta | internal/gateway/handlers.go:239-245 | writes one token event and returns an error exactly if the connection has not taken all it was given |
| Handlers.Conclude | internal/gateway/handlers.go:254-275 | after the switch the session is gone if and only if the client is, whatever the provider returned; otherwise APPROVED, with the reply if and only if the call succeeded and did not time out |
| Handlers.ChoiceIsAllowed | internal/gateway/handlers.go:254-275 | the branches the interleaved protocol allows are exactly those the ordered switch picks for contexts it can find |
| Manager.Manager.constructor | internal/session/manager.go:42-63 | defaults for zeroed fields and an empty valid manager |
| Manager.Manager.Create | internal/session/manager.go:69-100 | succeeds if and only if the limit is not reached and all draws succeed; a fresh WAITING object with the drawn credentials and both deadlines goes into both maps; errors change nothing; no object once out of reach returns |
| Manager.Manager.SessionHistory | internal/session/manager.go:104-116 | a fresh array with the stored history, out of reach of every later write; nothing for unknown ids |
| Manager.Manager.Status | internal/session/manager.go:127-137 | the state of a live session, NotFound otherwise |
| Manager.Manager.SessionSettings | internal/session/manager.go:208-218 | the settings of a live session, NotFound otherwise |
| Manager.Manager.ControlToken | internal/session/manager.go:221-231 | the control token of a live session, NotFound otherwise |
| Manager.Manager.FindByToken | internal/session/manager.go:150-162 | the scan, in any map order, finds a holder of the token exactly if there is one |
| Manager.Manager.ApproveByToken | internal/session/manager.go:147-164 | approves some live session with that token, if and only if it is WAITING, in time, the settings are valid and the draw succeeds, and says otherwise which of the four errors it is; NotFound without change if no session has the token |
| Manager.Manager.ApproveByCode | internal/session/manager.go:174-182 | the same for the session the index lists under the code; NotFound if it lists none |
| Manager.Manager.Approve | internal/session/manager.go:184-205 | refines Store.Approve: the order of the errors, nothing changed by a failure, token and settings set together |
| Manager.Manager.EndByControlToken | internal/session/manager.go:236-251 | destroys a live session if and only if the token is its control token and not empty; NotFound and Unauthorized change nothing |
| Manager.Manager.PreparePrompt | internal/session/manager.go:255-273 | succeeds if and only if the session is live and APPROVED, which becomes ACTIVE with the message appended in place and the deadline moved; the history comes back in a fresh array out of reach of every later write; NotFound and NotApproved change nothing |
| Manager.Manager.FinishPrompt | internal/session/manager.go:277-292 | refines Store.FinishPrompt: an empty reply appends nothing |
| Manager.Manager.FailPrompt | internal/session/manager.go:296-311 | refines Store.FailPrompt: removes the trailing user message only |
| Manager.Manager.SetGenCancel | internal/session/manager.go:315-326 | refines Store.SetGenCancel, in any state of the session |
| Manager.Manager.CancelGeneration | internal/session/manager.go:329-345 | NotFound, NotActive if no function is registered; otherwise invoked once, then forgotten |
| Manager.Manager.Destroy | internal/session/manager.go:349-377 | refines Store.Destroy: the object is scrubbed, leaves both maps, and is never reachable again |
| Manager.Manager.Sweep | internal/session/manager.go:381-403 | for any iteration order, deleting from the map it walks: leaves exactly the sessions that are ACTIVE, WAITING up to the pairing expiry or APPROVED up to the idle deadline, and refines Store.Sweep |
| Store.Store.SweepSurvivors | internal/session/manager.go:381-403 | a sweep leaves exactly the sessions that are ACTIVE, WAITING up to the pairing expiry or APPROVED up to the idle deadline, each unchanged, and sweeping again at the same reading changes nothing |
| Store.Store.DestroyAllThenOne | internal/session/manager.go:355-377 | destroying sessions one by one, in any order, is destroying their set at once: sessions, index and invoked cancels |
| Store.Store.CancelsOfAny | internal/session/manager.go:361-363 | the cancels invoked by destroying a set do not depend on the order |
| Store.IndexIsNoLarger | internal/session/manager.go:32-39 | a sound index has at most as many entries as there are sessions, even after collisions |
| Store.CreateKeepsCompleteIff | internal/session/manager.go:97-98 | creating a session keeps every live session listed if and only if no live session carries the drawn code |
| Store.DestroyKeepsSound | internal/session/manager.go:375-376 | destruction leaves no index entry behind, even after a collision |
| Store.SweepKeepsSound | internal/session/manager.go:385-402 | neither does a sweep |
| Store.DestroyKeepsComplete | internal/session/manager.go:371-376 | if every session is listed, destroying any of them unlists no other |
| Store.IndexAgreesWithScan | internal/session/manager.go:151-181 | a sound and complete index means distinct codes, and a lookup agrees with a scan |
| Store.CollisionLosesSessions | internal/session/manager.go:97-98 | a run of creations and one destroy after which a live session with a unique code is not listed |
| Settings.ParseSettings | internal/provider/settings.go:60-99 | exactly which raw requests are refused and with which error; otherwise valid settings, field by field |
| Settings.RequestBody | internal/provider/deepseek/deepseek.go:66-88 | the upstream body means the requested settings whenever they are valid, and otherwise the default ones, with the model of the client if none was requested and that is known |
| Settings.LabelDeterminesSettings | internal/client/cli.go:164-184 | valid settings with the same label are the same settings |
| Settings.LabelNames | internal/client/cli.go:164-184 | the label of valid settings starts with the name of the model and ends with the effort that is set |
| PairCode.NormalizePairCode | internal/protocol/types.go:114-122 | the digits of the input in order |
| PairCode.DigitsOfDigits | internal/protocol/types.go:114-122 | normalising keeps exactly the digit strings as they are |
| PairCode.DisplayedCodeIsTheCode | internal/protocol/types.go:125-130 | normalising the displayed form is normalising the code, and gives back the code exactly if it consists of digits |
| Providers.HonestCallIsLegal | internal/provider/provider.go:40-49 | every provider call that keeps the contract is a legal stretch of the prompt protocol, from the start of the stream to its result, with the frames written on the way |
| Providers.StreamDeepSeek | internal/provider/deepseek/deepseek.go:95-160 | whatever becomes of the request: the contract holds; without a stream the call fails before it delivers anything, otherwise it leaves the stream as ReadStream says |
| Providers.ReadStream | internal/provider/deepseek/deepseek.go:115-160 | for any lines, decoder, cancellation points and callback: the contract holds, and which prefix of the pieces was delivered, why the loop stopped and with what result |
| Providers.DeliverChunk | internal/provider/deepseek/deepseek.go:136-149 | the non-empty pieces of a chunk are delivered in order up to the first refused one, and the last finish reason is kept |
| Providers.FinishIsLastGiven | internal/provider/deepseek/deepseek.go:137-139 | the finish reason is the last non-empty one given, "stop" if there is none |
| Providers.NoEmptyPiece | internal/provider/deepseek/deepseek.go:140-142 | no empty delta is ever delivered |
| Providers.WrittenLine | internal/provider/deepseek/deepseek.go:124-135 | a data line as the API writes it carries exactly its payload: the end marker, a chunk, or what the decoder refuses |
| Providers.SpacedLine | internal/provider/deepseek/deepseek.go:124 | white space around a line of the response makes no difference |
| Providers.SkippedIsInvisible | internal/provider/deepseek/deepseek.go:124-127 | blank lines, comments and other fields change neither the answer nor its finish reason, wherever they come |
| Providers.AnswerIsWholeUnlessCancelled | internal/provider/deepseek/deepseek.go:120-160 | a call that succeeds has delivered a prefix of the answer, and all of it with the API's finish reason if its context was never done |
| Providers.ReportsCancelledIff | internal/provider/deepseek/deepseek.go:95-168 | from the inputs of a call, for every outcome: it reports "cancelled" if and only if there is a stream and the loop stops at a line where it either sees its context done with no other last reason than "stop" or "cancelled", or comes to the end of a stream whose last reason is "cancelled" |
| Providers.PromiseBrokenIff | internal/provider/provider.go:45-46 | from the inputs, for every outcome: the promise for cancelled calls is broken if and only if there is no stream, as when the call is cancelled while it waits for the response, or the loop stops at a line where a delta is refused, the line cannot be decoded, reading fails with the context still open, or another last reason decides |
| Providers.StopsOnce | internal/provider/deepseek/deepseek.go:120-150 | the lines, the checks of the context and the callback determine where the loop stops |
| Providers.CancelCanReportLength | internal/provider/deepseek/deepseek.go:163-168 | a call cancelled before its second line, after a first line with the reason "length", reports "length" in every outcome |
| Providers.CancelCanReportStop | internal/provider/deepseek/deepseek.go:120-160 | a call cancelled from the start with an empty stream reports "stop" in every outcome |
| Providers.CancelCanFail | internal/provider/deepseek/deepseek.go:132-135 | a call cancelled while its first line is decoded, when that line is malformed, returns an error in every outcome |
| Providers.MockReportsCancelledIff | internal/provider/mock/mock.go:43-59 | the mock reports "cancelled" if and only if it has a delay and its context is first found done before a character all of whose predecessors were taken |
| Providers.MockProvider.StreamCompletion | internal/provider/mock/mock.go:32-60 | stores the request and echoes its last message under the same contract |
| Providers.Echo | internal/provider/mock/mock.go:43-59 | the reply goes out character by character up to a refusal or a cancellation, and the text returned is what was accepted |
| Json.HexRoundTrip | internal/protocol/sse.go:14 | four hexadecimal digits give back the number |
| Json.StringRoundTrip | internal/protocol/sse.go:14 | an escaped string is decoded to itself, whatever follows it |
| Json.StringTruncated | internal/client/transport.go:107 | a string literal cut short is never accepted |
| Json.ObjectRoundTrip | internal/client/transport.go:107-122 | a rendered object is decoded to its values |
| Json.ObjectTruncated | internal/client/transport.go:107-122 | an object cut short is never accepted |
| Json.PayloadRoundTrip | internal/protocol/types.go:50-63 | a token, done or error payload is decoded to itself |
| Json.PayloadTruncated | internal/client/transport.go:105-125 | a payload cut short is never decoded, not even to other values |
| Json.CutIsUnclosed | internal/client/transport.go:105-125 | a non-empty payload cut short leaves a string or its brace open, so that no decoder of JSON can take it for a text of its own |
| Json.MarshalIsOneLine | internal/protocol/sse.go:18 | every payload is one printable line in braces, so it cannot break a frame |
| Sse.Writer.WriteSse | internal/protocol/sse.go:13-22 | writes exactly one frame, as far as the connection takes it, and returns an error exactly if it has not taken all it was given |
| Sse.ReadSse | internal/protocol/sse.go:29-69 | the loop dispatches exactly the events of the line machine, up to the first one refused, and which error it returns |
| SseLaws.SplitLinesAppend | internal/protocol/sse.go:48-49 | a stream cut at a line break splits into the lines of its parts |
| SseLaws.CommentsAreInvisible | internal/protocol/sse.go:55-63 | as long as every line fits the buffer, comment lines and unknown fields inserted anywhere change nothing |
| SseLaws.BlankIsInvisible | internal/protocol/sse.go:39-52 | a blank line with no data pending changes nothing, not even the event name |
| SseLaws.CrLfReadsLikeLf | internal/protocol/sse.go:48-49 | a stream with CRLF line ends is read like one with LF line ends |
| SseLaws.DataOfSeveralLines | internal/protocol/sse.go:39-63 | several data lines make one event, whose data splits into exactly these lines again |
| SseLaws.ConcatenationIff | internal/protocol/sse.go:36-46 | a stream, any at all, can be read before any other separately if and only if it ends at a line break, has no line too long and leaves the reader in its initial state |
| SseLaws.ReadWritten | internal/protocol/sse.go:18-69 | reading what was written gives the events up to the first frame that does not fit the line buffer |
| SseLaws.RoundTripIff | internal/protocol/sse.go:31 | a written stream is read back unchanged if and only if every line is shorter than 1 MiB in UTF-8 |
| SseLaws.AsciiFits | internal/protocol/sse.go:31 | a line of ASCII characters is read if and only if it is shorter than 1 MiB |
| SseLaws.Truncation | internal/protocol/sse.go:36-67 | reading any prefix of a written stream gives a prefix of the events and at most one more, with the next event's name and a trimmed prefix of its data |
| ClientPrompt.Prompt | internal/client/transport.go:102-132 | the deltas handed on, the finish reason and whether an error is returned, for any body, broken connection and callback |
| ClientPrompt.ReadsAsWritten | internal/client/transport.go:103-128 | every event read from a prefix of a response is one that was written, or one the client gives up on |
| ClientPrompt.SeenIsFaithful | internal/client/transport.go:103-128 | the client reacts to a prefix of a response as meant, event by event, and stops at the first end |
| ClientPrompt.ClientSeesTheTruth | internal/client/transport.go:113-131 | the client hands on a prefix of the tokens, and all of them if it sees a done event, which it does whenever it reports a finish reason |
| WholeResponse.WholeIsReturned | internal/client/transport.go:102-132 | for a whole response of fitting frames: every delta and the done reason without an error, even if the connection breaks afterwards; an error for an error event; and a client that refuses a delta gets an error right there |
| WholeResponse.FailsIff | internal/client/transport.go:103-132 | for any body, connection and callback: Prompt returns an error if and only if no done event was reached and the client gave up on an event, a line was too long or the connection broke |
| WholeResponse.UnknownEventsAreSkipped | internal/client/transport.go:104-128 | an event with another name, wherever it comes, changes neither the deltas nor the reason nor the error |
| ClientEnds.SilentIff | internal/client/transport.go:79-132 | for any frames, any cut, a connection that ends cleanly or breaks, and a client that takes every delta: Prompt returns neither an error nor a finish reason if and only if the client has got a done event with an empty reason, or the connection ends cleanly, no line it has got is too long, and the cut is among tokens, after a data line or before the colon of the next |
| SseLaws.ReadCutFrame | internal/protocol/sse.go:48-67 | what is read of a frame cut anywhere: nothing, its event with cut data, or its whole event |
| ClientEnds.CutAfterToken | internal/client/transport.go:103-132 | a response cut after a token is handed on without an error and without a reason |
| Reach.DoneCanComeTooLate | internal/gateway/handlers.go:271-274 | a reachable state in which a handler has sent done and its session is gone |
| Reach.CancelCanForget | internal/gateway/handlers.go:258-270 | a reachable state in which a generation was cancelled in time and its client stayed, but the provider call failed: the client has got an error event and the session is without the prompt |
| Reach.DisconnectDestroys | internal/gateway/handlers.go:254-257 | a reachable state in which a client has left in mid-prompt: nothing more was written, whatever the provider returned, the session is gone and its generation cancelled |
| Reach.TimeoutForgets | internal/gateway/handlers.go:262-265 | a reachable state after a timeout: the generation_timeout event was sent and the session is without the prompt |
| Reach.RefusalForgets | internal/gateway/handlers.go:219-223 | a reachable state after a response that could not be flushed: nothing was written and the session is APPROVED without the prompt |
| Reach.ApprovedAndEnded | internal/session/manager.go:147-251 | a reachable approval by pairing token, and an end by control token after it |
| Reach.WaitingIsSwept | internal/session/manager.go:381-403 | a reachable state in which a session nobody approved has been swept |
| RateLimit.CreateLimiter.Allow | internal/gateway/ratelimit.go:21-38 | filtering in place through the shared array, and growing it when full, is the pure filter followed by the decision |
| RateLimit.LogIsRecentAdmissions | internal/gateway/ratelimit.go:26-32 | under a clock that never goes back, the log and the list of all admissions agree on every later window |
| RateLimit.RefusedIff | internal/gateway/ratelimit.go:33-35 | a request is refused if and only if at least limit admitted requests lie within the last window |
| RateLimit.WindowBound | internal/gateway/ratelimit.go:21-38 | any limit + 1 consecutive admitted requests span at least the window |
| Repl.CallsFollowTheSession | internal/client/cli.go:42-133 | in every interleaving: no prompt before an APPROVED status, none after a close, at most one close, exactly one when the loop is over after a successful create, and calls in the order of a session's life |
| Repl.QuitIff | internal/client/cli.go:87-104 | in every run quit is closed if and only if the context has ended or a signal has been handled outside a stream |
| Repl.SignalIsHandled | internal/client/cli.go:93-103 | a signal that finds no prompt under way leads to the closing of quit and to nothing else; one that finds a prompt leads to a cancel if and only if the flag has not been swapped since doPrompt reset it; its next step can always be taken |
| Repl.CancelledIff | internal/client/cli.go:95-97 | the cancelled flag is set if and only if it has been swapped since the last prompt began |
| Repl.StreamingIff | internal/client/cli.go:187-189 | the streaming flag is set exactly while a prompt is under way |
| Repl.InterruptEndsTheSession | internal/client/cli.go:110-116 | after quit is closed the waiting loop can always see it; then only the one Close call is left, and Run is over |
| Repl.TheChatEnds | internal/client/cli.go:113-130 | quit, the end of the input and "/exit" each end the chat for good: no more prompts, Close can be called, and when Run is over it has been called exactly once |
| Repl.PairingEnds | internal/client/cli.go:135-162 | an APPROVED poll opens the chat, a DESTROYED or late one, a signal or an ended context ends the wait, and any other poll is repeated |
| Repl.CancelsNeverExceedPrompts | internal/client/cli.go:87-104 | cancel calls never exceed the prompts begun; they exceed the Prompt calls if and only if the main thread is between the reset of the flag and its call, the flag of every prompt begun has been swapped and no cancel is pending |
| Repl.CancelOvertakesIff | internal/client/cli.go:95-98 | the one step that makes them exceed is a cancel sent in that window after every flag has been swapped |
| Repl.CancelCanOvertakePrompt | internal/client/cli.go:186-192 | in that window one cancel can precede the first Prompt call |
| Repl.PromptsFollowTheInput | internal/client/cli.go:110-132 | the prompts sent are a prefix, in order, of the non-empty lines before the first "/exit", and all of them when the approved loop ends without quit |
| Repl.UninterruptedRunSendsAll | internal/client/cli.go:110-132 | without a signal or an ended context after approval every wanted line has been sent at the end, and no cancel |
| Repl.RunsKeepInv | internal/client/cli.go:42-209 | the invariant of the two threads holds in every reachable state |
| Repl.ReadLines | internal/client/cli.go:211-224 | the trimmed lines of the input, the unterminated last one included |

## Left out

- HTTP: routing, headers, status codes of the other handlers, request decoding and timeouts of the transport. A response that stops anywhere is covered by taking any prefix of it.
- handleApprove after the approval: it reads the control token in a second manager call and the state without the lock, so a session destroyed in between yields an error for an approval that took place; only the manager calls are modelled.
- The `api_key` stub and the APIKey field: a rejection branch and a field that is only cleared.
- Random draws: session ids are taken as fresh and control tokens as non-empty, pairing codes are not; a draw may fail.
- The inner per-session mutex: every method already holds the manager's lock.
- The nil clock, GenTimeout and nil callbacks: time is a parameter, the timeout a choice of the environment, and a callback is always given.
- Handlers that panic, and goroutines that never get scheduled: all claims are about what has happened, none about what must happen eventually.
- Handlers.HandlePrompt: one handler without interference, because a method cannot be interrupted; interference is in World.
- Handlers.StreamPrompt: the same. The deltas the provider calls back with and its result are given, as its contract with the writing callback allows.
- Sse.Writer.WriteSse: has no marshal error, because encoding the payloads of this program cannot fail.
- World: the request of a handler is a value; that the array behind it stays so is shown on the manager's objects in Copies.
- Json.ObjectTruncated: says that the modelled decoder refuses a cut object, and that decoder is stricter than encoding/json; what holds for any decoder is Json.CutIsUnclosed.
- Json.PayloadTruncated: the same for the payloads.
- Manager.Manager.SweepOne: a loop body on its own, with ghost arguments that tie it to the sweep.
- Providers.StreamDeepSeek: what becomes of the request is given: an error instead of a response, another status, or the lines of a stream with what the scanner reports after the loop. That a cancelled request ends with an error is net/http's doing and not part of this model. The JSON decoder of chunks is a parameter.
- General JSON: the decoder accepts the objects the gateway writes, with fields in that order and no white space; surrogate pairs and duplicate fields are not part of this model.
- Bytes: text is a sequence of Unicode scalar values; invalid UTF-8 and a response cut inside a character are not modelled. Line lengths are counted in UTF-8 bytes.
- Repl: what is printed, the QR code and the polling interval; the input is a list of lines fixed in advance.
- Configuration, commands, deployment scripts and the iOS application.
