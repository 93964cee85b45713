# Verified models of the pinpoint C++ tracing examples

This project models the logic that the tracing examples write themselves, around
the Pinpoint agent: the gRPC interceptors and their trace context, the nginx
module, the libcurl and Kafka header carriers, the MySQL demo, the call-stack
reader and the shell library of the demo drivers. `dafny verify dfyconfig.toml`
checks all of it.

The agent, gRPC, nginx, libcurl, librdkafka, cpptrace and the shell are stood in
for by small contracts; everything they may decide (whether a span is made, what
a clock shows, which step comes next) is a parameter that the theorems quantify over.

| files | what they are about |
|---|---|
| `Text.dfy`, `Spans.dfy` | strings as std::string and C see them; the ledger of spans and what it means for events to nest |
| `GrpcContext.dfy`, `GrpcServerInterceptor.dfy`, `GrpcClientInterceptor.dfy` | the trace context on metadata and the two interceptor classes, each proved equal to a step function, and what they record |
| `GrpcServerTracing.dfy`, `GrpcServerHooks.dfy`, `GrpcServerRecords.dfy`, `GrpcClientTracing.dfy`, `GrpcClientRecords.dfy`, `GrpcEndToEnd.dfy` | those step functions interleaved over any number of threads, on either side and across the wire |
| `BidiEcho.dfy` | the bidirectional call as two processes over FIFO channels |
| `NginxStrings.dfy`, `NginxLifecycle.dfy`, `NginxPrefork.dfy`, `NginxHeaders.dfy`, `NginxUpstream.dfy` | the nginx module: C strings in stack buffers, one process, the family of processes, the header search, the upstream event |
| `CurlHeaders.dfy`, `KafkaCarrier.dfy`, `Hosts.dfy` | header carriers and address parsers |
| `DriverOptions.dfy`, `LoadTest.dfy`, `Registration.dfy` | the demo drivers |
| `Json.dfy`, `JsonSpelling.dfy`, `MysqlReport.dfy`, `MysqlResponse.dfy`, `MysqlDemo.dfy` | a JSON reader, and the texts and events of the MySQL demo |
| `Frames.dfy` | the call-stack reader |

## Assumptions

- Every gRPC RPC stays on one thread, on either side, and HTTP handlers do not throw
  (`GrpcServerHooks` does without the first, and shows what is lost).
- A transport delivers the values of each trace key in the order they were sent; it may
  add, drop or reorder other metadata, and it may lose the context as a whole.
- The agent reads and writes the same fixed keys, distinct up to case.
- Case folding is that of the "C" locale.
- librdkafka compares header names as they were given; names with a NUL in them are not considered.
- Only nginx's master forks, and each process is initialized once.
- Sleeps last at least as long as requested unless interrupted, and time is read from one clock.

## Where the code differs from what is said about it

- The comment at grpc/pinpoint_grpc_interceptors.h:34-38 promises the result of Go's `net.SplitHostPort`.
  That holds for peers with a port; without one the last group of an IPv6 address is dropped
  (`Hosts.PortlessPeerIff`, `Hosts.PortlessBracketedPeerIff`).
- The curl reader trims leading spaces only, not tabs and not the end of the value
  (`CurlHeaders.TrimLeftIsOwsIff`), and the writer cuts a header at its first NUL.
- scripts/_lib.sh:162-164 says that removing the log keeps a previous run's registration from being
  matched. It keeps lines from before the start out, but not a previous run's process that opens the log
  afterwards (`Registration.OwnRunOnlyIffQuietBeforeStart`).
- The MySQL demo prints the text of exceptions into JSON without escaping it
  (`MysqlDemo.QuoteInErrorSpoilsTheAnswer`). The database's own error texts, which do hold quotes, are caught
  inside each query and never printed (`MysqlDemo.FailedQueriesDoNotShow`); a quoted text only gets there if a
  call outside a query's try block throws it: the agent's, in the guard that opens an event or in
  `initSqlSpanEvent`, or the printing behind the catch clause.
- nginx/ngx_http_pinpoint_module.c says nothing of overflow; the upstream total and its
  subtraction stay inside 64 bits for every request shorter than 2^63 ms (`NginxUpstream.NoOverflowIff`), and
  the model's wrap-around beyond that stands in for what C leaves undefined.
- The Kafka reader takes values through `value_string()`, librdkafka's accessor for C strings, so a value that
  was set with a NUL in it comes back cut (`KafkaCarrier.ValueRoundTripIff`).
- The nginx header loop relies on nginx never leaving an empty part in a list (`NginxHeaders.LoopIsFlatSearch`).

## Model

| member | source | states |
|---|---|---|
| GrpcEndToEnd.ServerSpansLinkToTheirCallers | grpc/pinpoint_grpc_interceptors.h:82-171 | in every run of any number of client and server threads, in any interleaving, the context a server span extracted is the one injected by the client event of that same RPC (or empty if none was), and that event's parent is the span of the HTTP request on the thread that issued the RPC |
| GrpcEndToEnd.ContextIdentifiesTheServerSpan | grpc/pinpoint_grpc_interceptors.h:82-171 | if the agent never hands out a context twice, no two server spans of a run continue the same context |
| GrpcEndToEnd.ServerSpansHaveTheClientsValues | grpc/pinpoint_grpc_interceptors.h:82-171 | under each key a server span has extracted the very value the client's agent had for that RPC, if the client injected and a context arrived, and nothing otherwise |
| GrpcEndToEnd.ReceivedRpcsHaveSpans | grpc/pinpoint_grpc_interceptors.h:85-103 | an RPC the server has received has a span there exactly if the server's agent had one to give |
| GrpcEndToEnd.SidesRun | grpc/pinpoint_grpc_interceptors.h:82-171 | each side of a run is a run of that side, so all that holds of either alone holds of both together |
| GrpcEndToEnd.ExtractedIsInjected | grpc/pinpoint_grpc_context.h:57-89 | what a server reads under the trace keys is exactly what the writer set on the client, all keys or none |
| GrpcEndToEnd.Run | grpc/pinpoint_grpc_interceptors.h:82-171 | every run of client and server together keeps the invariant of both sides, and the server only ever sees RPCs a client started |
| GrpcServerTracing.MethodsSeeTheirOwnSpan | grpc/grpc_server.cpp:37-97 | with every RPC on one thread, whatever the other threads do, `GetCurrentSpan()` in a service method is the span of its own RPC, and the slot is empty once the status is sent |
| GrpcServerTracing.SpansAreConserved | grpc/pinpoint_grpc_interceptors.h:82-123 | each span belongs to one RPC and read that RPC's metadata; it is held by exactly one thread, or it was ended exactly once and its events are well bracketed |
| GrpcServerTracing.MethodEventsHangUnderTheirSpan | grpc/grpc_server.cpp:37-97 | the scoped event of a service method has the span of the method's own RPC as its parent, and exists exactly when that span does |
| GrpcServerTracing.StepKeepsInv | grpc/pinpoint_grpc_interceptors.h:82-123 | every step of every thread (receive, enter, leave, send status) keeps the invariant behind these theorems |
| GrpcServerTracing.Run | grpc/pinpoint_grpc_interceptors.h:82-123 | the invariant holds in every reachable state of the traced server |
| GrpcServerRecords.SpansRecordTheirRpc | grpc/pinpoint_grpc_interceptors.h:92-118 | in every run an RPC has a span exactly if the agent had one to give; the span records the bare host of a sampled RPC's peer; it has ended exactly if the status was sent, and has an error exactly if that was a failure: its message |
| GrpcServerRecords.StepKeepsRecords | grpc/pinpoint_grpc_interceptors.h:92-118 | every step of every thread keeps that |
| GrpcServerRecords.EverySpanHasItsRpc | grpc/pinpoint_grpc_interceptors.h:92-118 | there are no other spans than those of RPCs |
| GrpcServerHooks.EverySpanHasOneFate | grpc/pinpoint_grpc_interceptors.h:82-123 | for arbitrary hook batches on arbitrary threads, each span is ended once, or held by the interceptor that made it and no other, or abandoned with a destroyed interceptor: exactly one of the three |
| GrpcServerHooks.CreatedIsEndedHeldOrAbandoned | grpc/pinpoint_grpc_interceptors.h:82-123 | conservation: over every run, the number of spans created is that of the ended ones, plus those held by the interceptor that made them, plus the abandoned ones |
| GrpcServerHooks.NothingAbandoned | grpc/pinpoint_grpc_interceptors.h:82-123 | no span is lost if no interceptor is destroyed while it holds one |
| GrpcServerHooks.SlotIsLastWritten | grpc/pinpoint_grpc_context.h:42-48 | a thread's slot holds what its own last slot-writing batch left there; other threads never show |
| GrpcServerHooks.InterleavedRpcsShareTheSlot | grpc/pinpoint_grpc_context.h:42-48 | thread confinement is needed: two RPCs taking turns on one thread, and the first finds the second one's span |
| GrpcServerHooks.StepKeepsInv | grpc/pinpoint_grpc_interceptors.h:82-123 | creating, running and destroying interceptors keeps every span accounted for |
| GrpcServerInterceptor.PinpointServerInterceptor.Intercept | grpc/pinpoint_grpc_interceptors.h:82-123 | one batch is the step the theorems are about; field by field, a receive batch without a span makes one, with the extracted values and the peer's bare host, and shares it, and a send batch ends the held span, records the failure of the status on it and clears the slot |
| GrpcServerInterceptor.ReceiveRecords | grpc/pinpoint_grpc_interceptors.h:85-103 | what the receiving half does to the fields, the slot and the ledger, spelled out |
| GrpcServerInterceptor.SendRecords | grpc/pinpoint_grpc_interceptors.h:105-120 | what the sending half does to them, spelled out |
| GrpcServerInterceptor.RecordedPeerIsHost | grpc/pinpoint_grpc_interceptors.h:94-97 | a sampled span for a peer printed as `ipv4:host:port` records the host |
| GrpcServerInterceptor.Agent.NewSpan | grpc/pinpoint_grpc_interceptors.h:89-92 | a new span takes the next number and records what the reader returns for each of the agent's fixed keys |
| GrpcClientTracing.InterceptorFindsTheRequestSpan | grpc/pinpoint_grpc_interceptors.h:149-151 | the interceptor's assertion never fails: whenever an RPC leaves a handler, the slot holds the span `wrap_handler` made for that request; and the slot is empty between requests |
| GrpcClientTracing.EventsNest | grpc/grpc_client.cpp:122-188 | over any number of requests, the events of each span nest; exactly the handler's event and that of the RPC in progress are open; and a span is ended once, with nothing open |
| GrpcClientTracing.StepKeepsInv | grpc/grpc_client.cpp:122-188 | every step of the wrapper, the handler and the interceptor keeps the invariant behind these theorems |
| GrpcClientTracing.Run | grpc/grpc_client.cpp:122-188 | the invariant holds in every reachable state of the traced client |
| GrpcClientRecords.EventsRecordTheirRpc | grpc/pinpoint_grpc_interceptors.h:153-178 | in every run an RPC has an event exactly if the agent had one to give, named after its method, addressed to the dial target, with the agent's values injected if there is a context, and with an error exactly if the RPC has returned with a failure: its message |
| GrpcClientRecords.SpansRecordFailedRpcs | grpc/grpc_client.cpp:64-108 | a request's span has an error exactly if one of its RPCs has returned with a failure, and it is the message of such a one |
| GrpcClientRecords.HandlerEventIsNamed | grpc/grpc_client.cpp:122-125 | while a request is handled, the handler's event is open under its own name on the request's span |
| GrpcClientRecords.StepKeepsRecords | grpc/pinpoint_grpc_interceptors.h:145-185 | every step of every thread keeps all that |
| GrpcClientInterceptor.PinpointClientInterceptor.Intercept | grpc/pinpoint_grpc_interceptors.h:145-185 | one batch is the step the theorems are about; field by field, its halves do what the two rows below say |
| GrpcClientInterceptor.PinpointClientInterceptor.OnPreSendInitialMetadata | grpc/pinpoint_grpc_interceptors.h:147-171 | opens one event on the current span, with the RPC's method as operation, the dial target as destination and both in the URL, and sets each trace key once on the client context |
| GrpcClientInterceptor.PinpointClientInterceptor.OnPostRecvStatus | grpc/pinpoint_grpc_interceptors.h:173-182 | closes the event that was opened, if it still is, with the message of a failed status as its error, and touches nothing else |
| GrpcClientInterceptor.DepartureRecords | grpc/pinpoint_grpc_interceptors.h:147-171 | what the sending half does to the fields, the ledger and the metadata, spelled out |
| GrpcClientInterceptor.ReturnRecords | grpc/pinpoint_grpc_interceptors.h:173-182 | what the receiving half does to them, spelled out |
| GrpcClientInterceptor.Agent.InjectContext | grpc/pinpoint_grpc_interceptors.h:166-169 | calls `Set` for every fixed key, in order, and records the values it handed out |
| Spans.WellBracketedIffAllClosed | grpc/grpc_client.cpp:122-188 | the stack reading of a trace and the bracket grammar agree: all events are closed in reverse order of opening if and only if the trace is a nest of blocks |
| GrpcContext.GrpcServerTraceContextReader.Get | grpc/pinpoint_grpc_context.h:57-71 | returns the first metadata entry whose key matches in any casing, none for a null context |
| GrpcContext.GrpcClientTraceContextWriter.Set | grpc/pinpoint_grpc_context.h:83-89 | appends the entry under the folded key; a null context is left alone |
| GrpcContext.LookupIsFirstEntry | grpc/pinpoint_grpc_context.h:62-69 | on any metadata, lookup finds the first entry whose key is equal up to case, and nothing exactly if there is none |
| GrpcContext.SetAllAppends | grpc/pinpoint_grpc_context.h:83-89 | a sequence of sets adds one entry each, in order, with the value as it is and the key up to case, without capitals |
| GrpcContext.LookupFindsFirstSet | grpc/pinpoint_grpc_context.h:57-89 | after any sequence of sets, lookup under any casing is first-set-wins, and finds nothing exactly when no key matches |
| GrpcContext.ContextSurvivesTransport | grpc/pinpoint_grpc_context.h:57-89 | keys distinct up to case come out of any transport that keeps their values in order, under any casing |
| GrpcContext.SecondCasingIsLost | grpc/pinpoint_grpc_context.h:33-38 | distinctness up to case is needed: of two keys equal up to case, the second one's value is never returned |
| KafkaCarrier.KafkaTraceContextReader.Get | kafka/kafka_trace_context.h:29-42 | a hit returns the last value under exactly this key, read as a C string and so up to its first NUL, and invalidates every view lent before; a miss changes nothing |
| KafkaCarrier.KafkaTraceContextWriter.Set | kafka/kafka_trace_context.h:53-56 | appends to the record's headers |
| KafkaCarrier.HeadersRefineMap | kafka/kafka_trace_context.h:29-56 | after any sequence of sets, the header that lookup finds is that of a case-sensitive map with last-set-wins |
| KafkaCarrier.GetLastIs | kafka/kafka_trace_context.h:34-38 | it is the last entry with exactly this key, and there is none exactly if no entry has it |
| KafkaCarrier.GetAll | kafka/kafka_trace_context.h:29-46 | of any sequence of `Get` calls, each returns what its key was last set to, up to the first NUL, and the view one of them lent is still intact afterwards if and only if all later ones missed |
| KafkaCarrier.ValueRoundTripIff | kafka/kafka_trace_context.h:38-56 | a value comes back as it was set if and only if it holds no NUL |
| Hosts.IPv4PeerRoundTrip | grpc/pinpoint_grpc_interceptors.h:39-59 | a host printed as `ipv4:host:port` is resolved back if and only if it is not itself bracket-wrapped; colons in it are harmless |
| Hosts.IPv6PeerRoundTrip | grpc/pinpoint_grpc_interceptors.h:39-59 | literal (RFC 3986, 3.2.2) and percent-encoded (2.1) brackets both resolve to the bare host, whatever it contains |
| Hosts.BarePeerRoundTrip | grpc/pinpoint_grpc_interceptors.h:39-59 | without a scheme, the host is resolved back if and only if the peer is not taken for a socket path, the host is not bracket-wrapped, and the peer does not begin with `ipv4:` or `ipv6:`; in that last case only if the port happens to spell the host |
| Hosts.PeerHostIsPartOfPeer | grpc/pinpoint_grpc_interceptors.h:39-59 | for every input the result is non-empty, and it is the fallback or a piece of the peer in front of its last colon |
| Hosts.PortlessPeerIff | grpc/pinpoint_grpc_interceptors.h:47-53 | a peer without a port is resolved if and only if its host has no colon and is not bracket-wrapped |
| Hosts.PortlessBracketedPeerIff | grpc/pinpoint_grpc_interceptors.h:47-57 | a bracketed host without a port is resolved if and only if it has no colon, so no bracketed IPv6 address is |
| Hosts.UrlHostRoundTrip | curl/curl_web_example.cpp:96-101 | for colon-free schemes, extraction undoes URL building if and only if the host is slash-free and the rest is empty or begins with a slash |
| Hosts.ExtractedHostHasNoSlash | curl/curl_web_example.cpp:96-101 | for every input the result contains no slash |
| Hosts.QueryWithoutPathStaysInHost | curl/curl_web_example.cpp:96-101 | unlike RFC 3986, section 3.2, a query or fragment without a path does not end the host |
| BidiEcho.AtMostOneMessageInFlight | grpc/grpc_client.cpp:91-111 | for any number of rounds, every reachable state has at most one message in flight, `Message i` or its echo, and the client's i-th read is `Echo: Message i` |
| BidiEcho.ExactlyOneSideCanMove | grpc/grpc_client.cpp:91-111 | no deadlock and no race: until the client has its status, exactly one side can move |
| BidiEcho.EveryCallCompletes | grpc/grpc_server.cpp:82-97 | every run ends after exactly 4 * rounds + 3 moves, with both sides finished, status OK and all echoes read |
| BidiEcho.StepKeepsInv | grpc/grpc_server.cpp:82-97 | every move keeps the invariant and brings the call one move closer to its end |
| BidiEcho.RunKeepsInv | grpc/grpc_client.cpp:91-111 | the invariant and the measure hold in every reachable state |
| BidiEcho.MessagesDiffer | grpc/grpc_client.cpp:95-98 | the numbers printed into the messages tell the rounds apart |
| NginxPrefork.OnlyTracingProcessesCallTheAgent | nginx/ngx_http_pinpoint_module.c:151-166 | over every run of forks, reloads and exits, only worker or single processes with `enable` set to 1 ever call the agent |
| NginxPrefork.TracingProcessStartsItsAgent | nginx/ngx_http_pinpoint_module.c:151-202 | in every run, initializing a worker or single process with `enable` set to 1 goes for the agent, and if that succeeds the process keeps a new agent that exactly one call has started; initializing any other process makes no call |
| NginxPrefork.AgentCallsAreInOrder | nginx/ngx_http_pinpoint_module.c:186-213 | in every run, of two calls on an agent the later one is no start, behind a shutdown it is the destroy, and nothing is behind a destroy |
| NginxPrefork.StartedAgentsAreTakenDown | nginx/ngx_http_pinpoint_module.c:186-213 | in every run, an agent was started by a call of its process, is neither shut down nor destroyed while `g_agent` holds it, and both once its process has exited |
| NginxPrefork.HandleIsSetWhileOwnAgentRuns | nginx/ngx_http_pinpoint_module.c:186-213 | `g_agent` is set in a process exactly while an agent that this very process started is running |
| NginxPrefork.EveryCallIsInItsWindow | nginx/ngx_http_pinpoint_module.c:204-213 | each agent is started, used, shut down and destroyed in this order by the process that started it; no call in the LOG phase or elsewhere is outside that window |
| NginxPrefork.EachAgentIsTakenDown | nginx/ngx_http_pinpoint_module.c:204-213 | an agent whose process has exited was shut down once and then destroyed once |
| NginxPrefork.LifeMeansOrder | nginx/ngx_http_pinpoint_module.c:204-213 | what a life without violation means for each single call in the log |
| NginxPrefork.Run | nginx/ngx_http_pinpoint_module.c:151-213 | the invariant holds in every reachable family of processes |
| NginxPrefork.StepKeepsInv | nginx/ngx_http_pinpoint_module.c:151-213 | fork, init, LOG phase and exit each keep it |
| NginxPrefork.ForkIsSafeIffParentHasNoAgent | nginx/ngx_http_pinpoint_module.c:147-162 | forking keeps the invariant if and only if the parent has no agent |
| NginxPrefork.ForkedHandleIsTakenDownTwice | nginx/ngx_http_pinpoint_module.c:204-213 | a process that forks after its start has its agent shut down by both processes: the log holds two shutdowns of it once both exit |
| NginxPrefork.ReinitIsSafeIffNoSecondStart | nginx/ngx_http_pinpoint_module.c:186-200 | a second `init_process` loses the first agent if and only if it starts another one |
| NginxLifecycle.Process.InitProcess | nginx/ngx_http_pinpoint_module.c:151-202 | the agent API calls of `init_process` and the new `g_agent`, for every process kind, configuration and answer of the environment |
| NginxLifecycle.ConfigFileIsHandedOver | nginx/ngx_http_pinpoint_module.c:178-183 | the configuration path is handed over exactly if it is there and fits the buffer, and then as it is |
| NginxLifecycle.OptionsAreFreed | nginx/ngx_http_pinpoint_module.c:171-200 | granted options are freed once, as the last call, whether the start succeeds or not |
| NginxLifecycle.Process.ExitProcess | nginx/ngx_http_pinpoint_module.c:204-213 | one shutdown, then one destroy, then no agent; nothing for a process without one |
| NginxLifecycle.Process.LogHandler | nginx/ngx_http_pinpoint_module.c:321-385 | the agent API calls of one completed request, with the times, addresses, status and upstream event they record, all on `g_agent`, and none without it |
| NginxLifecycle.TellSpan | nginx/ngx_http_pinpoint_module.c:352-379 | what the span is told between its creation and its end, for every request |
| NginxLifecycle.SpanIsToldWhileOpen | nginx/ngx_http_pinpoint_module.c:337-382 | a main request, with the agent enabled and a span to give, has its span made once, told everything while it is open, ended once and then destroyed; any other request records nothing |
| NginxLifecycle.NewSpanIsForTheRequest | nginx/ngx_http_pinpoint_module.c:341-350 | the span is made for the request's path and method, as far as the buffers hold them |
| NginxLifecycle.SpanIsToldTheRequest | nginx/ngx_http_pinpoint_module.c:356-374 | it is told the start, the peer's address, the host if there is one, and the error status if there is one, else the status sent |
| NginxLifecycle.LoggedTimesAreInOrder | nginx/ngx_http_pinpoint_module.c:353-382 | the upstream event is the last thing told before the span ends, and starts between the recorded start and the time of logging if the tries were disjoint intervals in between; nothing overflows |
| NginxStrings.CopyToCString | nginx/ngx_http_pinpoint_module.c:253-258 | copies as much as fits and always leaves a C string |
| NginxStrings.StackString | nginx/ngx_http_pinpoint_module.c:253-258 | a reader of the buffer sees the source up to its first NUL or the buffer's end |
| NginxStrings.TruncatedIs | nginx/ngx_http_pinpoint_module.c:253-258 | a NUL-free string is seen whole if it fits, and else as far as the buffer goes |
| NginxHeaders.HeaderGet | nginx/ngx_http_pinpoint_module.c:225-249 | on a finite chain of parts the loop terminates, reads nothing out of range, and returns the first case-insensitive match in the concatenation of all parts |
| NginxHeaders.FirstMatchIs | nginx/ngx_http_pinpoint_module.c:239-245 | the match is the first header whose name is equal up to case, and there is none exactly if no name is |
| NginxHeaders.FlatIs | nginx/ngx_http_pinpoint_module.c:228-238 | the concatenation holds each part right behind the parts in front of it |
| NginxHeaders.LoopIsFlatSearch | nginx/ngx_http_pinpoint_module.c:225-249 | the loop reads out of range if and only if an empty part behind the first is not preceded by a match; on all other lists it is the flat search |
| NginxHeaders.NginxListsQualify | nginx/ngx_http_pinpoint_module.c:231-238 | lists as nginx builds them, with no empty part behind the first, are always searched safely |
| NginxHeaders.EarlyMatchDecides | nginx/ngx_http_pinpoint_module.c:225-249 | a match in an early part is the match of the whole list, whatever follows |
| NginxUpstream.RecordUpstream | nginx/ngx_http_pinpoint_module.c:272-319 | the folded event starts the timed tries' total before the request's end, in 64-bit arithmetic, and carries the peer and status of the last try |
| NginxUpstream.EventIsOfTheLastTry | nginx/ngx_http_pinpoint_module.c:289-314 | the event reports the peer and the status of the last try, whatever the ones before it were, and the path, each as far as its buffer holds it |
| NginxUpstream.EachTryMovesTheStart | nginx/ngx_http_pinpoint_module.c:291-301 | without tries the start is the end, and each timed try moves it back by exactly its time |
| NginxUpstream.EventStartsWithinSpan | nginx/ngx_http_pinpoint_module.c:288-301 | for any number of ordered, disjoint tries inside the request, timed or not, the event starts between the start of the span and its end; and no partial sum and not the subtraction overflows if the request is shorter than 2^63 ms, as any request is that starts at 0 or later |
| NginxUpstream.NoOverflowIff | nginx/ngx_http_pinpoint_module.c:288-301 | no partial sum and not the subtraction overflows if and only if the timed total is below 2^63 and can be taken off the end |
| NginxUpstream.LongestRequestOverflows | nginx/ngx_http_pinpoint_module.c:288-301 | the length bound is needed: one try that fills a request of almost 2^64 ms overflows both |
| NginxUpstream.EventStartsWithinSpanIff | nginx/ngx_http_pinpoint_module.c:288-301 | for any tries at all, if overflow wraps around, the event starts within the span if and only if the timed total modulo 2^64 fits into it |
| NginxUpstream.TotalFitsIff | nginx/ngx_http_pinpoint_module.c:288-301 | where nothing overflows, it does so if and only if the total itself fits |
| NginxUpstream.MoreTriesStartEarlier | nginx/ngx_http_pinpoint_module.c:288-301 | a further try never moves the start later, and leaves it in place only if it is untimed or immediate |
| NginxUpstream.OverlappingTriesStartTooEarly | nginx/ngx_http_pinpoint_module.c:288-301 | disjointness is needed: two long overlapping tries start the event before its span |
| NginxUpstream.ToMsIsMonotonic | nginx/ngx_http_pinpoint_module.c:356-357 | the conversion to milliseconds does not overflow and keeps the order of time |
| NginxUpstream.WallClockEventInSpan | nginx/ngx_http_pinpoint_module.c:288-379 | from clock readings and sequential tries: the event starts between the converted start and the converted end, and neither the conversions nor the total nor the subtraction overflows |
| NginxUpstream.Int64Sum | nginx/ngx_http_pinpoint_module.c:288-301 | storing partial sums in 64 bits makes no difference to the total stored |
| CurlHeaders.CurlTraceContextWriter.Set | curl/curl_web_example.cpp:36-39 | adds one line, as a C string, in a fresh node behind the list on the heap, whose nodes stay as they are but for the last one's link |
| CurlHeaders.SetWritesTheHeader | curl/curl_web_example.cpp:37-38 | a NUL-free set writes the key, a colon, a space and the value |
| CurlHeaders.Append | curl/curl_web_example.cpp:36-39 | the list that `curl_slist_append` extends in place: same nodes, one fresh node behind the last |
| CurlHeaders.CurlHeaderReader.Get | curl/curl_web_example.cpp:51-69 | the first case-insensitive match in iteration order (RFC 9110, section 5.1) |
| CurlHeaders.FirstNamedIs | curl/curl_web_example.cpp:51-69 | it is the first entry whose name is equal up to case, and there is none exactly if no name is |
| CurlHeaders.ParseLineIs | curl/curl_web_example.cpp:53-65 | on any line, the name is what stands in front of the first colon and the value what stands behind it, left-trimmed; a line without a colon is skipped |
| CurlHeaders.CurlHeaderReader.ForEach | curl/curl_web_example.cpp:71-82 | the callback is called with the entries in order, up to and including its first refusal |
| CurlHeaders.ReadBack | curl/curl_web_example.cpp:36-90 | the round trip on the heap: after any `Set` calls with colon-free keys, `ForEach` on the list that is there visits what survives of each set, in order, up to the callback's first refusal, and `Get` returns the first case-insensitive match among them; without NULs, what survives are the keys with left-trimmed values |
| CurlHeaders.SetAll | curl/curl_web_example.cpp:36-39 | a sequence of `Set` calls leaves a list that holds one line for each set ever made, in order |
| CurlHeaders.RoundTrip | curl/curl_web_example.cpp:36-90 | the lines of any sequence of sets with colon-free keys and no NULs read as exactly those keys with left-trimmed values, in order |
| CurlHeaders.ReadingYieldsSurvivors | curl/curl_web_example.cpp:36-90 | the lines of any sequence of sets with colon-free keys read as exactly what `c_str()` leaves of each set, in order |
| CurlHeaders.LineRoundTripIff | curl/curl_web_example.cpp:36-90 | one header comes back unchanged if and only if its key has no colon, neither part has a NUL and the value does not begin with a space |
| CurlHeaders.SetSurvives | curl/curl_web_example.cpp:36-90 | what is read back of a single set |
| CurlHeaders.TrimLeftIsOwsIff | curl/curl_web_example.cpp:85-90 | trimming agrees with RFC 9110, section 5.6.3, if and only if the value is all spaces, or it neither ends in a space or tab nor has a tab right behind its leading spaces |
| CurlHeaders.TrimValue | curl/curl_web_example.cpp:85-90 | the loop drops exactly what `TrimLeftDropsSpaces` describes |
| CurlHeaders.SameName | curl/curl_web_example.cpp:59-64 | comparing name and key character by character, once their lengths agree, is equality up to ASCII case |
| CurlHeaders.TrimLeftDropsSpaces | curl/curl_web_example.cpp:85-90 | what trimming takes off are spaces, all that are in front, and what it leaves is untouched |
| CurlHeaders.VisitIsUnique | curl/curl_web_example.cpp:71-82 | the description of an iteration determines its calls |
| CurlHeaders.VisitWithoutStop | curl/curl_web_example.cpp:71-82 | a callback that never stops sees every entry |
| DriverOptions.ParseOptions | scripts/_lib.sh:69-88 | accepts exactly the argument lists of the grammar, with the last command (default `up`) and the last duration (default 0), and otherwise dies on the first offender |
| DriverOptions.WordsOfTheGrammar | scripts/_lib.sh:73-84 | the grammar's words: `up`, `test`, `down`, and `--load` in front of a non-empty string of digits |
| DriverOptions.LastCommandIs | scripts/_lib.sh:69 | the command is that of the last command word, and `up` without one |
| DriverOptions.LastDurationIs | scripts/_lib.sh:70 | the duration is that of the last `--load`, and 0 without one |
| DriverOptions.SpellingIsUnique | scripts/_lib.sh:69-88 | printing options is injective, so parsing what was printed gives it back |
| DriverOptions.RecognizePrinted | scripts/_lib.sh:72-86 | reading printed options gives them back and leaves the rest to be read |
| DriverOptions.BadRestIsFatal | scripts/_lib.sh:72-86 | behind a valid beginning, an unreadable rest cannot be repaired by reading the beginning differently |
| DriverOptions.OffenderIsFatal | scripts/_lib.sh:72-87 | each reason to die rules out every reading of the whole argument list |
| LoadTest.Run | scripts/_lib.sh:308-344 | makes exactly as many requests as there are turns, at most 20 a second; every one is counted, except a last one that Ctrl-C made fail; without URLs the script dies in its first turn |
| LoadTest.TurnsAreBounded | scripts/_lib.sh:323-338 | with sleeps at least as long as requested, a run of D seconds has at most 20 * D turns, wherever in a second it starts |
| LoadTest.BoundIsMet | scripts/_lib.sh:323-338 | the bound is attained |
| LoadTest.RequestsAreInRange | scripts/_lib.sh:324-336 | turn by turn, the request goes to the URL its random number picks, and the gap is the other random number's, between 50 and 500 ms |
| LoadTest.TurnsStopInTime | scripts/_lib.sh:323 | the loop goes on exactly as long as its time is not over and Ctrl-C has not come |
| LoadTest.SuccessesAre | scripts/_lib.sh:325-326 | the requests counted as successes are exactly those that went well |
| LoadTest.SleepTextRoundTrip | scripts/_lib.sh:336 | the `%d.%03d` text denotes exactly the gap |
| Registration.LogIsNewerThanLatestStart | scripts/_lib.sh:162-165 | in any history of starts, everything in a demo's log was written after its latest start |
| Registration.OwnRunOnlyIffQuietBeforeStart | scripts/_lib.sh:146-173 | in all futures of a start only the new run shows in the log, if and only if no live process of the demo was still to open its log or keeps forking children |
| Registration.LateOpenerIsCounted | scripts/_lib.sh:253-283 | a process of an earlier run that opens the log after it was removed is counted as the new run's registration |
| Registration.SlowStarterIsCounted | scripts/_lib.sh:253-283 | and that does happen from the empty system: two starts, and the first one's slow process is the only registration the second one's wait finds |
| Registration.WaitAgentReady | scripts/_lib.sh:253-283 | reports success exactly when `count` registrations are found, and a warning only after the timeout; if the earlier runs were out of the way, all that is found is of the latest run |
| Registration.CountIs | scripts/_lib.sh:267 | what is counted are exactly the lines that are registrations |
| Registration.WaitAfterQuietStart | scripts/_lib.sh:146-283 | after a start that found the demo quiet, whatever else the driver does short of restarting it, the wait reports success if and only if this very run has logged `count` registrations |
| Registration.QuietStartSettles | scripts/_lib.sh:146-173 | a quiet start leaves the earlier runs out of the way for good |
| Registration.WaitAgentsReady | scripts/_lib.sh:285-292 | whoever is not warned about is registered, without a warning every listed process whose earlier runs were out of the way is registered in this very run, and a warning comes after a minute or more in vain |
| Registration.StepKeepsInv | scripts/_lib.sh:146-173 | starts, forks, log openings, appends and deaths keep the log newer than the latest start |
| MysqlReport.ReportIsJsonIffPlain | mysql/mysql_example.cpp:313-335 | for every sequence of `addOperation` calls, the printed report is JSON (RFC 8259) for exactly those calls if and only if no string contains a quote, a backslash or a control character |
| MysqlReport.ReportGivesBackTheCalls | mysql/mysql_example.cpp:325-335 | the `operations` array of the report's meaning holds the calls, in order |
| MysqlReport.EntryGivesBackTheCall | mysql/mysql_example.cpp:325-335 | each entry determines its call, and has `details` exactly when the call's were not empty |
| MysqlReport.EntrySaysTheCall | mysql/mysql_example.cpp:328-332 | the names under which an entry holds its call |
| MysqlReport.ReportSays | mysql/mysql_example.cpp:315-318 | what surrounds the operations in the report |
| MysqlReport.DemoReport.AddOperation | mysql/mysql_example.cpp:324-335 | keeps the printed text that of the calls made so far, with the commas in the right places |
| MysqlReport.DemoReport.Finish | mysql/mysql_example.cpp:414-420 | the finished text parses to the calls made if and only if they are plain |
| MysqlResponse.SuccessIsJsonIff | mysql/mysql_example.cpp:482-486 | the answer with the report inside it is read back exactly when the report on its own would be |
| MysqlResponse.FailureIsJsonIff | mysql/mysql_example.cpp:509-514 | the answer to an exception is JSON for it if and only if its text is plain |
| MysqlResponse.UnavailableIsJson | mysql/mysql_example.cpp:492-502 | the answer without a database is always JSON |
| MysqlResponse.AnswersSay | mysql/mysql_example.cpp:482-502 | each of the three answers says first whether it is a success |
| MysqlDemo.DemoThread.ExecuteQuery | mysql/mysql_example.cpp:211-311 | a query leaves one event, opened and closed, however its body is left, and none if the event's guard is what throws; it records the error it caught |
| MysqlDemo.DemoThread.RunSteps | mysql/mysql_example.cpp:337-412 | runs the script up to the first exception that escapes a query; the operations and the events are those of exactly that part, plus one failure entry |
| MysqlDemo.DemoThread.RunDemoHandler | mysql/mysql_example.cpp:313-421 | its event encloses those of all queries begun, whatever they throw, and the text is the report of the operations; if its own guard throws, it leaves no event and no text |
| MysqlDemo.DemoThread.HandleDbDemo | mysql/mysql_example.cpp:471-525 | the handler's event encloses everything below it; status and body are those of the way the attempt went |
| MysqlDemo.DemoThread.WrapHandler | mysql/mysql_example.cpp:455-466 | when `EndSpan` runs, which is once, the events of the request's span are all closed; they stay well bracketed, the slot is empty afterwards; the status is 503 without a database, 500 if the run throws and 200 else; and the body is JSON for what happened if and only if the exception text in it is plain |
| MysqlDemo.RequestSpan.End | mysql/mysql_example.cpp:448-453 | a span is only ended with all its events closed |
| MysqlDemo.ReportedIsPlainIff | mysql/mysql_example.cpp:337-412 | the only text that can spoil the report is that of an exception that escapes a query |
| MysqlDemo.ReportedIs | mysql/mysql_example.cpp:337-412 | the report holds all operations of the script, or those in front of the first query an exception escapes from, and its failure |
| MysqlDemo.ScriptNotes | mysql/mysql_example.cpp:339-405 | a run that is not cut short reports its eight operations, in order |
| MysqlDemo.TracedIs | mysql/mysql_example.cpp:337-412 | the events inside the run are those of the queries begun whose guard has opened them, one after the other |
| MysqlDemo.RequestTraceIs | mysql/mysql_example.cpp:313-323 | the trace of a request, from outside in |
| MysqlDemo.FailedQueriesDoNotShow | mysql/mysql_example.cpp:253-262 | queries that fail inside their own try block change neither the report nor the events |
| MysqlDemo.BodyIsJsonIff | mysql/mysql_example.cpp:480-514 | each of the three answers is JSON for what happened if and only if the exception text in it is plain |
| MysqlDemo.QuoteInErrorSpoilsTheAnswer | mysql/mysql_example.cpp:410-412 | a quote in an escaping exception's text makes the answer say something else |
| Json.ParsesIffTokensMatch | mysql/mysql_example.cpp:313-335 | the reader accepts a text for a value if and only if its tokens spell that value, so what the printer is measured against is unambiguous |
| JsonSpelling.ReadBackIffPlain | mysql/mysql_example.cpp:328-331 | printed between two quotes, a string is read back unchanged if and only if it is plain, even by a reader that knows all escapes |
| JsonSpelling.SpelledValueParses | mysql/mysql_example.cpp:313-335 | a text that spells a value exactly when its strings are plain is JSON for it exactly then |
| Frames.ForEach | cpptrace/cpptrace_example.cpp:45-75 | the callbacks are exactly those of the frames with a non-empty symbol outside `std::`, in order, each described by its frame |
| Frames.KeptInOrder | cpptrace/cpptrace_example.cpp:47-51 | the frames passed on stand at increasing positions, and at every position that is not skipped |
| Frames.SkippedIs | cpptrace/cpptrace_example.cpp:49-51 | skipped are exactly the empty symbols and those that begin with `std::` |
| Frames.DescribeFrame | cpptrace/cpptrace_example.cpp:53-73 | cuts the symbol at its last `::`, or takes the module from the file up to its first dot, or falls back to `unknown` |
| Frames.DescriptionIsUnique | cpptrace/cpptrace_example.cpp:53-73 | that description leaves nothing open: a frame has one callback |
| Frames.NothingIsLost | cpptrace/cpptrace_example.cpp:61-65 | the function contains no `::`; module, `::` and function rebuild a scoped symbol, and an unscoped one is the function itself |
| Frames.SameNamesSameSymbolIff | cpptrace/cpptrace_example.cpp:61-73 | callbacks that agree in module and function come from the same symbol if and only if both symbols were scoped or neither was |
| Frames.ScopedAndFreeNamesMeet | cpptrace/cpptrace_example.cpp:61-73 | a member of `foo` and a free function of foo.cpp give the same callback |
| Frames.StartsWithPrefix | cpptrace/cpptrace_example.cpp:33-38 | true exactly for strings that begin with the prefix |
| Text.ToLower | grpc/pinpoint_grpc_context.h:33-38 | ASCII case folding, character by character |
| Text.FoldedIsLower | grpc/pinpoint_grpc_context.h:33-38 | by character codes: capitals become the letter 32 codes further on, everything else stays, and no capital is left |
| Text.FoldEqIff | grpc/pinpoint_grpc_context.h:62-66 | strings are equal up to case if and only if they are, character by character, equal or the two cases of one ASCII letter |
| Text.CStr | curl/curl_web_example.cpp:36-39 | what a reader of `c_str()` sees: the part in front of the first NUL |
| Text.DecimalRoundTrip | grpc/grpc_client.cpp:97 | a printed number reads back as itself |

## Left out

- NginxLifecycle.Process.LogHandler: does not model the URL statistics, the acceptor host, the event's destination and the service types, which repeat recorded values or are constants, nor how the new span reads the incoming headers, which NginxHeaders models.
- MysqlDemo.DemoThread.RunSteps: runs a table of steps in a loop where the source has straight-line calls; the order, the event names and the operations are the source's, the SQL texts are left out.
- JsonSpelling.SpelledValueParses: the reader rejects numbers, `null` and surrogate pairs, which the printed texts never contain unless in an exception's text.
- GrpcClientTracing.EventsNest: assumes that handlers do not throw, since `wrap_handler` has no guard for it.
- Registration.OwnRunOnlyIffQuietBeforeStart: a demo's log file is opened once by each process or forked child; log rotation, and processes outside the driver writing the same file, are not modelled.
- LoadTest.Run: durations beyond the shell's 64-bit integers are not modelled; the clock is an abstract number of milliseconds.
- GrpcClientRecords.HandlerEventIsNamed: does not cover the error that the handler marks its own event with when a call has failed, nor the JSON it answers with.
- BidiEcho.EveryCallCompletes: connection loss and cancellation are not modelled; the channels are lossless.
- Frames.ForEach: symbol pruning, base names and the stack walk itself belong to cpptrace; their results are the model's inputs.
- The destination that `ResolveGrpcTarget` reads out of the dial target: a string the client interceptor is given.
- The unary and one-way streaming service methods beyond their events: string building around a stream.
- The JSON texts of the gRPC and curl demos and of the MySQL status page: fixed texts, or the same printing idiom as the MySQL demo.
- Exceptions that are not `std::exception`, which no handler of the MySQL demo catches.
- redis, mongodb, the Kafka producer and consumer binaries, civetweb: the same span wrapper around client calls.
- cpptrace/http_trace_context.h: its behaviour on duplicate keys is decided by httplib, which is not part of this model.
- Container handling, builds, port polling, the smoke tests and the process shutdown of scripts/_lib.sh: I/O.
- Sampling, transport and storage inside the agent; network, database and broker calls; console output.
