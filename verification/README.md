# HarborCLS: a model of the server framework, with proofs

HarborCLS is a C++ server framework; two sample servers, one that knows pieces and one that routes to it, are
built on it. This project models the parts of both whose behaviour is hardest to see from the code and proves what
they are for.

* **Blocking queue** (`BlockingQueue.dfy`). A FIFO guarded by a mutex and a counting semaphore. The statements of
  `push` and `pop` are separate steps of any number of threads. They refine a queue whose calls take effect at
  once, no wake-up is lost, and `front` never runs on an empty queue. The class `Queue` is the same code as one
  undisturbed call.
* **Server pipeline and shutdown** (`Messages.dfy`, `Pipeline*.dfy`, `StageLoops.dfy`, `WebServiceResolver.dfy`).
  Listener, request handler, application handler, any number k >= 1 of services, response handler, main thread and
  the thread that calls `stop()`, joined by queues, as a state machine whose steps interleave freely. Clients
  connect at any time, reads and replies are arbitrary, `accept` may fail, tasks may return Errors and Stops.
  Invariants of every run, termination of the shutdown by a measure, freedom from deadlock, and what is handled and
  written by then, from the clients that connect (`PipelineArrivals.dfy`) and from what the tasks return
  (`PipelineReplies.dfy`). Two wishes are false of the code: that the server always shuts down and that it writes
  every response. `PipelineCounterexamples.dfy` has runs that show it, `PipelineOutcomes.dfy` for each the exact
  condition: what comes first on the connections queue, and which requests go to which service. `StageLoops.dfy`
  has the thread loops as they are written, proved against the same specification functions.
* **Presence protocol** (`Presence.dfy`): message composers, the parsing loop, the figure-to-server table, and the
  round trip between them, whole and cut.
* **HTTP text** (`HttpFraming.dfy`, `HttpMessageLength.dfy`, `HttpResponse.dfy`, `HttpRequest.dfy`): message framing
  and the length of a body stated on their own (sections 2.1 and 6.3 of RFC 9112), the response composer and the
  request parser against them.
* **HTML printer** (`HtmlTree.dfy`, `HtmlReading.dfy`): elements on the heap, their recursive `toString`, a
  tag-stack parser, and a reader of attributes and styles that gives the whole tree back.
* **Lego file** (`LegoFile.dfy`): nested line-reading loops on a stream with its eof and fail bits
  (`InputStream.dfy`).
* **Log rotation** (`LogFileNames.dfy`, `LogRotation.dfy`, `Chunking.dfy`): file names that are stamped again and
  again, and bounded rotation as a partition of the messages.
* **JSON policies** (`JsonPolicies.dfy`, `ServerConfigurationPolicies.dfy`): lists of keys and accessors run
  forwards and backwards.

`Sequences.dfy` and `Wrappers.dfy` hold what all modules share. `Text.dfy` and `Decimal.dfy` model `find`,
`search`, `to_string`, `stoi` and `stoull` with their widths (32-bit int, 64-bit unsigned with wrap-around of a
minus sign) and errors.

What comes from outside is a parameter: the bytes of a connection, the result of `accept`, of `handleTask` and of
`canHandle`, the local ip, the time on the clock, the text of a file, the lookup tables of the HTTP code. The file
system is a map from names to lines. In the pipeline a parsed request is its connection and its bytes.

Where code and documentation differ the model follows the code. HarborCLS_Tests/Server/HttpRequestParsingTests.cpp:101
expects the body without the CRLF that HarborCLS_Library/Server/Http/HttpRequestParser/HttpRequestParser.cpp:43 and
:46 leave in front of it. HarborCLS_Tests/Server/HttpResponseComposerTests.cpp composes without a socket, which the
code refuses, and expects a header without the `Server` line, with other field order and with two more empty lines.
An empty header line is a field: the table of names has an entry for ""
(HarborCLS_Library/Server/Http/HttpMessages/HttpMappings.hpp:66).

## Model

The members of class `Queue` and of the classes that change state are named with their class.

| member | source | states |
|---|---|---|
| BlockingQueue.StepKeepsInv | HarborCLS_Library/Server/Concurrency/Queue.hpp:38-57 | Any statement of any thread inside `push` or `pop` keeps: at most one lock holder; queue length = semaphore + pushers that have queued but not posted + poppers that have waited but not removed; dequeued ++ queue = enqueued; a copied front is still the front; `front`/`pop` have not met an empty queue |
| BlockingQueue.EveryInterleavingIsFifo | HarborCLS_Library/Server/Concurrency/Queue.hpp:38-57 | After every interleaving of any number of pushers and poppers: first in, first out; the counting equation; one lock holder; no crash on an empty queue |
| BlockingQueue.StuckOnlyWhenEmpty | HarborCLS_Library/Server/Concurrency/Queue.hpp:38-57 | No lost wake-up: the threads inside the queue are all blocked iff there are none, or the queue is empty and all of them wait in `sem_wait`; if nobody is between counting and queueing and items remain, the semaphore is positive |
| BlockingQueue.CallsReturnWhileElementsLast | HarborCLS_Library/Server/Concurrency/Queue.hpp:38-57 | Progress: once nobody calls any more, every statement that a thread executes is one less of those remaining; when no thread can go on every push has returned, and every pop too unless the queue is empty |
| BlockingQueue.StepRefines | HarborCLS_Library/Server/Concurrency/Queue.hpp:38-57 | One statement is at most one step of a queue whose calls take effect at once, with the same invocations and returns seen by callers |
| BlockingQueue.EveryInterleavingIsAtomic | HarborCLS_Library/Server/Concurrency/Queue.hpp:38-57 | Linearizability: for every interleaving there is a run of the atomic queue with the same calls, returns and results in the same order, and the same content at the end |
| BlockingQueue.SoloPush | HarborCLS_Library/Server/Concurrency/Queue.hpp:38-43 | Undisturbed, the statements of `push` append the element, release one permit and leave nothing else changed |
| BlockingQueue.SoloPop | HarborCLS_Library/Server/Concurrency/Queue.hpp:50-57 | Undisturbed on a non-empty queue, the statements of `pop` return and remove the first element and take one permit |
| BlockingQueue.Queue.Push | HarborCLS_Library/Server/Concurrency/Queue.hpp:38-43 | The method appends its element and keeps the semaphore equal to the length with the lock free |
| BlockingQueue.Queue.Pop | HarborCLS_Library/Server/Concurrency/Queue.hpp:50-57 | The method returns the first element and leaves the others |
| WebServiceResolver.ResolvePicksFirstElseZero | HarborCLS_Library/Server/WebApplication/DependencyManagement/WebServiceResolver.hpp:18-32 | No service for an empty list; else the first service that can handle the request, or service 0 if none can |
| PipelineInvariants.ListenerStep | HarborCLS_Library/Server/Middleware/Listener.hpp:53-96 | Every step keeps: the flag is up iff `stop()` has begun; a finished listener or `stop()` has queued a Stop; while the listener has not seen the flag, there is a connection left for it to accept (what it queues is stated in PipelineArrivals) |
| PipelineInvariants.RequestTakesStep | HarborCLS_Library/Server/Middleware/Handler.hpp:34-58 | Every step keeps: what was taken from the connections queue is data up to, and ended by, the first Stop or Error, and is what was read, in order |
| PipelineInvariants.RequestForwardsStep | HarborCLS_Library/Server/WebApplication/Middleware/Handlers/RequestMiddlewareHandler.hpp:49-74 | Every step keeps: what was forwarded is what was read, blank reads dropped and the rest parsed, in order, but for the one in hand; one Stop closes it, after a Stop only |
| PipelineInvariants.AppStep | HarborCLS_Library/Server/WebApplication/Middleware/Handlers/ApplicationMiddlewareHandler.hpp:39-59 | Every step keeps: every entry queue holds exactly the dispatched requests the resolver gives to it, in order, and then at most one Stop; a service is joined before the next is told to stop |
| PipelineInvariants.ServicesStep | HarborCLS_Library/Server/WebApplication/DependencyManagement/BaseWebAppService.hpp:63-93 | Every step keeps: each service has handled, in order, what it has taken from its entry queue up to the first Stop |
| PipelineInvariants.ProducersStep | HarborCLS_Library/Server/WebApplication/DependencyManagement/BaseWebAppService.hpp:69-93 | Every step keeps: each producer's share of the responses queue is its replies in order and, when it has ended, one Stop; as long as no task has returned a Stop, the Stops queued are those of services 0, 1, … and last the application handler's |
| PipelineInvariants.ResponseStep | HarborCLS_Library/Server/Middleware/Handlers/ResponseMiddlewareHandler.hpp:37-50 | Every step keeps: the responses written are those taken from the responses queue before the first Stop or Error, in order |
| PipelineInvariants.MainStep | HarborCLS_Library/Server/GenericServer.hpp:163-181 | Every step keeps: the main thread has joined listener, request handler, application handler, response handler in this order, each only after it returned |
| PipelineInvariants.ReachableInv | HarborCLS_Library/Server/WebApplication/GenericWebApplication.hpp:174-186 | All of these hold in every state of every run, for every list of services |
| PipelineArrivals.EveryArrivalIsAccountedFor | HarborCLS_Library/Server/Middleware/Listener.hpp:53-96 | In every run, stated from the clients that connect: until the flag is up, the connections queued, the one in the listener's hand and the backlog are, in order, exactly those that arrived, and every failed `accept` has been queued twice but for what is about to be; after that at most one connection is missing and it is the next one, and at most two Errors; `stop()` and the listener have queued one Stop each |
| PipelineShutdown.StepLowersMeasure | HarborCLS_Library/Server/WebApplication/Middleware/Handlers/ApplicationMiddlewareHandler.hpp:39-46 | Once the flag is up every step of every thread lowers a measure over queues and thread states that is a natural number; the arrival of a client leaves it as it is |
| PipelineShutdown.ShutdownTakesBoundedlyManySteps | HarborCLS_Library/Server/Middleware/Listener.hpp:53-96 | From any reachable state with the flag up, no run has more steps of the server than the measure, whatever clients do |
| PipelineOutcomes.StopReturnedMeansEnd | HarborCLS_Library/Server/Middleware/Listener.hpp:53-59 | Once `stop()` has returned there is a Stop or an Error on the connections queue |
| PipelineOutcomes.ShutsDownIffStopComesFirst | HarborCLS_Library/Server/Middleware/Handler.hpp:45-56 | Let a stopping server have a Stop or an Error on its connections queue. A run from there in which in the end no thread can take a step has returned from `runServerComponents` if and only if the first of them is a Stop and not an accept error |
| PipelineShutdown.ShutdownCompletes | HarborCLS_Library/Server/GenericServer.hpp:163-181 | In a run without accept errors a stopping server in which no thread can take a step has joined everything |
| PipelineShutdown.CanFinish | HarborCLS_Library/Server/WebApplication/GenericWebApplication.hpp:174-192 | From every state of such a run the server's own threads, with tasks that return nothing, can take it to the end, within the measure |
| PipelineCounterexamples.AcceptErrorBlocksShutdown | HarborCLS_Library/Server/Middleware/Handler.hpp:50-56 | With any services: one failed `accept` ends the request handler without a Stop, and `stop()` then leaves the main thread waiting for the application handler for ever |
| PipelineResults.RequestStageIsPrefixSafe | HarborCLS_Library/Server/WebApplication/Middleware/Handlers/RequestMiddlewareHandler.hpp:49-74 | In every reachable state the request handler has handled a prefix of the connections queued before the first Stop or Error; what it forwarded is that, blanks dropped, parsed, in order (byte by byte in PipelineArrivals.ReadsWithDataAreForwarded); ended by a Stop it has handled all of them and its output is closed by exactly one Stop |
| PipelineArrivals.ReadsWithDataAreForwarded | HarborCLS_Library/Server/WebApplication/Middleware/Handlers/RequestMiddlewareHandler.hpp:57-74 | In every reachable state what was forwarded, and is about to be, are, in order, exactly the reads that hold some byte other than zero |
| PipelineResults.DispatchIsExactlyOnceAndOrdered | HarborCLS_Library/Server/WebApplication/Middleware/Handlers/ApplicationMiddlewareHandler.hpp:48-59 | In every reachable state the history of each entry queue is exactly the dispatched requests whose first fitting service (else service 0) it is, in order; the histories add up to all dispatched requests; these are a prefix of the forwarded ones; each service has handled a prefix of its own |
| PipelineResults.ReturnedServerHandledEverything | HarborCLS_Library/Server/GenericServer.hpp:163-181 | When the main thread has joined everything: every connection queued before the first Stop was read; every non-blank read was parsed, dispatched and handled by its service, in order; unless a task returned a Stop, the k+1 Stops on the responses queue are those of services 0..k-1 and the application handler, in this order; exactly what lies before the first Stop or Error there is written (the next three rows say the same from the clients, the bytes and the services on) |
| PipelineArrivals.QueuedClientsAreRead | HarborCLS_Library/Server/Middleware/Listener.hpp:65-96 | When the main thread has joined everything, the connections read are a beginning of those that arrived; if no `accept` had failed by some moment before `stop()`, they hold all that had arrived by then but the one in the listener's hand and the backlog |
| PipelineArrivals.ServicesHandleWhatFits | HarborCLS_Library/Server/WebApplication/DependencyManagement/WebServiceResolver.hpp:18-32 | When the main thread has joined everything, each service has handled, in order, exactly the reads with data that it is the service for: the first that can handle them, or the first of all if none can |
| PipelineArrivals.ReturnedServerServedArrivals | HarborCLS_Library/Server/GenericServer.hpp:163-181 | For every run that ends with everything joined: what was read are the first of the connections that arrived in the run, and each service has handled exactly what it is the service for |
| PipelineReplies.EveryReplyIsQueued | HarborCLS_Library/Server/WebApplication/DependencyManagement/BaseWebAppService.hpp:63-77 | In every run: the bytes received are those that were read, in order; a service has handled one request for every call of its task; its share of the responses queue, with the reply in its hand, is what its task has returned in the run, in order, and one Stop once it has ended |
| PipelineReplies.ReturnedServerQueuedEveryReply | HarborCLS_Library/Server/WebApplication/DependencyManagement/BaseWebAppService.hpp:63-93 | For every run that ends with everything joined: the responses queue has carried, of every service, what its task returned, in order, and then its Stop, one Stop of the application handler, and nothing else |
| PipelineReplies.FirstServiceIsAnswered | HarborCLS_Library/Server/Middleware/Handlers/ResponseMiddlewareHandler.hpp:37-50 | If moreover tasks return responses or nothing: what was written is what the queue carried before the Stop of the first service, which stands behind all that its task returned; with one service it is exactly what its task returned, in order |
| PipelineResults.NoResponseOfFirstServiceIsLost | HarborCLS_Library/Server/WebApplication/DependencyManagement/BaseWebAppService.hpp:69-93 | If the tasks return responses only (or nothing): the Stop that ends the response handler is that of service 0, all of whose responses are written; with one service every response is |
| PipelineCounterexamples.LaterServiceCanLoseResponse | HarborCLS_Library/Server/WebApplication/Middleware/Handlers/ApplicationMiddlewareHandler.hpp:39-46 | For every list of services, every request that is not blank and goes to a service other than the first, and every response: a complete, error-free shutdown in which that service gives that response, the only one there is, and it is never written |
| PipelineOutcomes.WritesEveryResponseIffFirstServiceServesAll | HarborCLS_Library/Server/WebApplication/Middleware/Handlers/ApplicationMiddlewareHandler.hpp:39-46 | For every list of services: all responses are written in every complete shutdown in which the tasks return responses only (or nothing) if and only if every request that is not blank goes to the first service |
| StageLoops.Listener.Listen | HarborCLS_Library/Server/Middleware/Listener.hpp:65-96 | The loop pushes every connection once and every accept error twice until the round that sees the flag; that round pushes one Stop (after the error, if it got one) |
| StageLoops.EchoedAtItsPlace | HarborCLS_Library/Server/Middleware/Listener.hpp:65-96 | What is obtained in a round is queued at its place, an Error twice and anything else once |
| StageLoops.EchoedKeepsConnections | HarborCLS_Library/Server/Middleware/Listener.hpp:65-96 | Every connection is passed on once, in order, every Error twice and every Stop once |
| StageLoops.RequestMiddlewareHandler.Handle | HarborCLS_Library/Server/Middleware/Handler.hpp:34-58 | The consumer loop takes everything up to the first Stop or Error, reads each connection, and forwards what was read, blanks dropped, parsed, in order; after a Stop and only then it forwards one Stop |
| StageLoops.RequestMiddlewareHandler.HandleSingle | HarborCLS_Library/Server/WebApplication/Middleware/Handlers/RequestMiddlewareHandler.hpp:57-74 | If some byte of the read is not zero it is forwarded as one request; a read of zero bytes only, or of none, leaves the queue as it is |
| StageLoops.BaseWebAppService.Run | HarborCLS_Library/Server/WebApplication/DependencyManagement/BaseWebAppService.hpp:58-94 | The service loop puts the task's replies, in order, and then, after a Stop only, one Stop on the exit queue, and takes nothing past the end |
| StageLoops.ReplyAtItsPlace | HarborCLS_Library/Server/WebApplication/DependencyManagement/BaseWebAppService.hpp:63-77 | The reply to a request, if there is one, stands between the replies to the requests before and after it |
| StageLoops.ApplicationMiddlewareHandler.HandleSingle | HarborCLS_Library/Server/WebApplication/Middleware/Handlers/ApplicationMiddlewareHandler.hpp:48-59 | The request is appended to the entry queue of the resolved service and to no other |
| StageLoops.ApplicationMiddlewareHandler.OptionalToEnd | HarborCLS_Library/Server/WebApplication/Middleware/Handlers/ApplicationMiddlewareHandler.hpp:39-46 | Each service in turn gets its Stop and runs to its end, each with its own task, before the next; one more Stop follows |
| StageLoops.FirstServiceIsStoppedFirst | HarborCLS_Library/Server/WebApplication/Middleware/Handlers/ApplicationMiddlewareHandler.hpp:39-46 | Stopping services in turn is the first one's replies and its Stop, and then stopping the others |
| StageLoops.ApplicationMiddlewareHandler.Handle | HarborCLS_Library/Server/Middleware/Handler.hpp:34-58 | Everything before the first Stop or Error is dispatched; after a Stop the responses queue gets each service's replies to its own share and its Stop, in turn, and the handler's Stop; after an Error nothing |
| StageLoops.ResponseMiddlewareHandler.Handle | HarborCLS_Library/Server/Middleware/Handlers/ResponseMiddlewareHandler.hpp:33-50 | Every response before the first Stop or Error is written, in order, and nothing after it |
| RoutingTable.RoutingMap.Insert | Servers/IntermediaryServer/Services/Utility/RoutingMap.cpp:21-24 | A figure that has a server keeps it; any other gets the new one |
| RoutingTable.RoutingMap.EraseFigure | Servers/IntermediaryServer/Services/Utility/RoutingMap.cpp:26-29 | The figure is gone and nothing else has changed |
| RoutingTable.RoutingMap.EraseServer | OldServers/IntermediaryServer/RoutingMap.hpp:56-66 | The iterator loop removes exactly the figures of that server, whatever order it visits them in |
| RoutingTable.InsertedAllAddsMissing | OldServers/IntermediaryServer/RoutingMap.hpp:36-40 | Inserting a list of figures for a server adds exactly those the table did not have |
| RoutingTable.InsertingTwice | Servers/IntermediaryServer/Middleware/LegoPresentHandler.hpp:49-60 | A message received twice leaves the table as receiving it once does |
| RoutingTable.ErasingUndoesInserting | OldServers/IntermediaryServer/RoutingMap.hpp:36-66 | Erasing a server after inserting figures for it leaves what erasing it before would have left |
| Presence.CreatePresenceMessage | Servers/PiecesServer/Services/LegoPresentService.cpp:55-81 | The vector built by inserts is code, separator, ip, ':', port, separator and every name with its separator |
| Presence.CreateDiscoverMessage | Servers/IntermediaryServer/Services/LegoDiscoverService.hpp:37-55 | The discover form ends after the port |
| Presence.PiecesOfPresence | Servers/PiecesServer/Services/LegoPresentService.cpp:55-81 | Between the separators of a LEGO_PRESENT message stand "1", the address and the names, in order, and nothing after the last |
| Presence.PiecesOfDiscovery | Servers/IntermediaryServer/Services/LegoDiscoverService.hpp:37-55 | Between those of a LEGO_DISCOVER message stand "0" and the address |
| Presence.LegoPresentHandler.HandleSingle | Servers/IntermediaryServer/Middleware/LegoPresentHandler.hpp:27-61 | Another code changes nothing; a port that does not convert throws; otherwise the table becomes the old one with every parsed name inserted for the parsed address |
| Presence.LegoPresentHandler.AddRoutes | Servers/IntermediaryServer/Middleware/LegoPresentHandler.hpp:49-60 | The parser loop ends on every text and inserts the names of the text in order |
| Presence.HandleDiscover | Servers/PiecesServer/Middleware/LegoDiscoverHandler.hpp:29-58 | The answer goes to the parsed address and is the LEGO_PRESENT message of this server; a port that does not convert throws |
| Presence.AddressRoundTrip | Servers/IntermediaryServer/Middleware/LegoPresentHandler.hpp:43-47 | For an ip without ':' or separator and any 32-bit int port, ip and port are read back, and what follows the port is left, if it is empty or starts with a separator |
| Presence.PresenceRoundTrip | Servers/IntermediaryServer/Middleware/LegoPresentHandler.hpp:41-60 | A composed LEGO_PRESENT message is understood with the same ip, port and names in order; the table gains exactly the names it lacked, and erasing the server takes them back |
| Presence.CutPresenceIsAPrefix | Servers/IntermediaryServer/Middleware/LegoPresentHandler.hpp:47-60 | Cut anywhere after the separator that follows the port, the message still gives ip and port, and the names are the first ones sent and at most one non-empty beginning of the next |
| Presence.DiscoveryHandshake | Servers/PiecesServer/Middleware/LegoDiscoverHandler.hpp:29-58 | A discover message gives back the sender's address; the answer, parsed by the other side, enters exactly this server's names under its address |
| Decimal.LettersAreNoNumber | Servers/IntermediaryServer/Middleware/LegoPresentHandler.hpp:43-47 | A port that starts with neither digit, sign nor blank, or is empty, does not convert |
| Decimal.BlankAndPlusAreSkipped | Servers/IntermediaryServer/Middleware/LegoPresentHandler.hpp:43-47 | A blank and a plus sign in front of a number change nothing |
| HttpFraming.FramingIsRecoverable | HarborCLS_Library/Server/Http/ResponseSerialization/HttpResponseComposer.hpp:38-74 | For lines without CR or LF (sections 2.1 and 6.3 of RFC 9112) the first CRLFCRLF of a message is its header end, the lines before it are the lines printed, and the rest is the body, whatever it holds |
| HttpResponse.Response.GenerateHeader | HarborCLS_Library/Server/Http/ResponseSerialization/HttpResponseComposer.hpp:38-74 | The appended text is the status line, content type if known, server, other fields, Content-Length and additional line, each ended by CRLF, and an empty line (what they say when read is HttpResponse.ResponseIsRead) |
| HttpResponse.Response.Compose | HarborCLS_Library/Server/Http/ResponseSerialization/HttpResponseComposer.hpp:20-36 | Header and body; without a socket an exception; only a body of bytes is moved out |
| HttpResponse.ResponseIsRead | HarborCLS_Library/Server/Http/ResponseSerialization/HttpResponseComposer.hpp:20-74 | For any version without a blank and fields of the caller's whose names hold no ':', read from the composed text: the version stands before the first blank and the status behind it, so that the code is its first three characters; cut at the first ':', the next lines are the content type, if known, the server, the caller's fields in order and the length, each under its name; then comes the additional line, if any, and behind the empty line the body |
| HttpMessageLength.LengthIsWhatAllAgreeOn | HarborCLS_Library/Server/Http/ResponseSerialization/HttpResponseComposer.hpp:64 | The length a recipient finds in a header (section 6.3 of RFC 9112: names without regard to case, several lengths must agree, a transfer encoding overrides them, some status codes have no body): for a header that gives some length it is n if and only if every field agrees with n |
| HttpResponse.ResponseFraming | HarborCLS_Library/Server/Http/ResponseSerialization/HttpResponseComposer.hpp:20-74 | The composed text is taken apart into its header lines and body in one way only, and a recipient takes what follows the header for the body if and only if: the status allows a body or there is none; `contentLength` is unset or right; and neither a field of the caller's nor the additional line is folded, names a transfer encoding or gives another length |
| HttpResponse.AdditionalLineCanMisframe | HarborCLS_Library/Server/Http/ResponseSerialization/HttpResponseComposer.hpp:66-68 | An additional line that gives the length 7 keeps every body of another length from being framed, unless the status forbids a body |
| HttpRequest.ParseRequestLine | HarborCLS_Library/Server/Http/HttpRequestParser/HttpHeaderParser.cpp:53-68 | The three words of the line; an unknown method throws |
| HttpRequest.ShortRequestLineIsRead | HarborCLS_Library/Server/Http/HttpRequestParser/HttpHeaderParser.cpp:53-68 | Words that are missing from the request line are empty |
| HttpRequest.ParseHeader | HarborCLS_Library/Server/Http/HttpRequestParser/HttpHeaderParser.cpp:10-45 | The loop over the stream assigns the first word after every recognised key, later lines over earlier ones, and keeps the raw text |
| HttpRequest.FirstWordIsRead | HarborCLS_Library/Server/Http/HttpRequestParser/HttpHeaderParser.cpp:23-42 | Of a value of several words the first is kept |
| HttpRequest.LastLetterIsDropped | HarborCLS_Library/Server/Http/HttpRequestParser/HttpHeaderParser.cpp:28-30 | The last letter of a key is dropped, whether it is a ':' or not |
| HttpRequest.EmptyLineIsRead | HarborCLS_Library/Server/Http/HttpRequestParser/HttpHeaderParser.cpp:23-42 | An empty header line gives an empty value to the field that the table has for "" |
| HttpRequest.SplitAcceptHeader | HarborCLS_Library/Server/Http/HttpRequestParser/HttpRequestParser.cpp:9-19 | The `getline` loop yields the items between the commas, without an empty last one |
| HttpRequest.HttpRequestParser.GetBody | HarborCLS_Library/Server/Http/HttpRequestParser/HttpRequestParser.cpp:21-51 | A body of bytes if some listed content type is known to need one, else of text (pinned on printed requests by the two lemmas on accepted types below) |
| HttpRequest.HttpRequestParser.CreateRequest | HarborCLS_Library/Server/Http/HttpRequestParser/HttpRequestParser.cpp:53-73 | Header text up to the first CRLFCRLF, its parsed content, and as body everything from two bytes after that position |
| HttpRequest.ParsingInvertsPrinting | HarborCLS_Library/Server/Http/HttpRequestParser/HttpHeaderParser.cpp:10-68 | For any words as method, URL and version and any list of `Name: token` lines (sections 3 and 5 of RFC 9112): they are read back, the last value of every recognised name winning; raw header ++ CRLF ++ body is the whole input, and the body is CRLF and the body sent |
| HttpRequest.CreatingInvertsPrinting | HarborCLS_Library/Server/Http/HttpRequestParser/HttpRequestParser.cpp:53-73 | `createRequest` of a printed request returns exactly what was printed if the method is known, and throws if and only if it is not (which of the two kinds its body has is the subject of the next two lemmas) |
| HttpRequest.AcceptedTypesDecideBody | HarborCLS_Library/Server/Http/HttpRequestParser/HttpRequestParser.cpp:21-51 | If the last line of a printed request that gives accepted types is a list joined by commas, the body is held as bytes if and only if the table says of one of its items (but for an empty last one) that it needs that; it is CRLF and the body sent either way |
| HttpRequest.NoAcceptedTypesMeanText | HarborCLS_Library/Server/Http/HttpRequestParser/HttpRequestParser.cpp:53-73 | Without such a line the body is text, whatever the table says of "", and the field is there, empty |
| HttpRequest.AcceptGivesAcceptedTypes | HarborCLS_Library/Server/Http/HttpMessages/HttpMappings.hpp:66-78 | With the repository's table the lines that give accepted types are those called "Accept" |
| HttpRequest.LastLineCounts | HarborCLS_Library/Server/Http/HttpRequestParser/HttpHeaderParser.cpp:40-42 | Of the lines that give a field the last one counts |
| HttpRequest.KnownMethodsAreWords | HarborCLS_Library/Server/Http/HttpMessages/HttpMappings.hpp:54-64 | The nine methods of the table meet the condition of the two lemmas above |
| HtmlTree.HtmlElement.AddChild | HarborCLS_Library/Server/WebApplication/WebAppDefaultServices/MVC/View/HtmlElement.hpp:44-48 | Any element becomes the last child; if both are trees and this element is not below the child, the element then stands for its tree with the child's tree last |
| HtmlTree.HtmlElement.AddContent | HarborCLS_Library/Server/WebApplication/WebAppDefaultServices/MVC/View/HtmlElement.hpp:50-54 | The content grows at its end; nothing else changes |
| HtmlTree.HtmlElement.AddProperty | HarborCLS_Library/Server/WebApplication/WebAppDefaultServices/MVC/View/HtmlElement.hpp:32-36 | The property is last; nothing else changes |
| HtmlTree.HtmlElement.ToString | HarborCLS_Library/Server/WebApplication/WebAppDefaultServices/MVC/View/HtmlElement.hpp:56-92 | On every finite acyclic tree of elements the recursion ends and returns the printed form of the tree it stands for (what can be read from that form are the rows below) |
| HtmlTree.PrintingIsRecoverable | HarborCLS_Library/Server/WebApplication/WebAppDefaultServices/MVC/View/HtmlElement.hpp:56-92 | For every tree whose strings hold no '<' or '>' and whose tags hold no space and do not begin with '/', a tag-stack parser of the printed text returns the same tree, every element with its tag, the text of its attributes, its content and its children in order, and nothing more |
| HtmlReading.AttributesAreRead | HarborCLS_Library/Server/WebApplication/WebAppDefaultServices/MVC/View/HtmlElement.hpp:60-80 | For names without '=' and values without '"', cutting the text of the attributes at '=' and quotes gives name, id, every property and the style attribute, in order |
| HtmlReading.PrintedTreeIsReadBack | HarborCLS_Library/Server/WebApplication/WebAppDefaultServices/MVC/View/HtmlElement.hpp:56-92 | If moreover style names hold no ": " and style values no "; ", a reader of the printed text gives back the whole tree, with tags, names, ids, properties, styles, contents and children in order, if and only if no element has a first property called name or id where the element has none, or a last one called style where it has no styles |
| HtmlReading.NameCanBeProperty | HarborCLS_Library/Server/WebApplication/WebAppDefaultServices/MVC/View/HtmlElement.hpp:58-68 | A name and a property called "name" print alike, which is why the condition is there |
| HtmlReading.LeafText | HarborCLS_Library/Server/WebApplication/WebAppDefaultServices/MVC/View/HtmlElement.hpp:56-92 | A leaf, letter by letter |
| LegoFile.ReadLegoPiece | Servers/PiecesServer/Services/LegoInMemoryRepository.cpp:110-136 | The piece, or none, or the exception, and the stream afterwards, as line reading on a good, ended or failed stream gives them |
| LegoFile.ReadLegoFigure | Servers/PiecesServer/Services/LegoInMemoryRepository.cpp:71-108 | The figure with the pieces read until one gives up, and the stream afterwards |
| LegoFile.LegoInMemoryRepository.Load | Servers/PiecesServer/Services/LegoInMemoryRepository.cpp:46-60 | The outer loop ends on every text, with the figures of the text or the exception of the first line or of an amount |
| LegoFile.PieceMovesOn | Servers/PiecesServer/Services/LegoInMemoryRepository.cpp:98-136 | A piece that was read leaves less to read, counting the stream's state |
| LegoFile.FigureMovesOn | Servers/PiecesServer/Services/LegoInMemoryRepository.cpp:54-59 | Every round of the outer loop, with a figure or without, leaves less to read, on well-formed and malformed text |
| LegoFile.LastLineIsReadThreeTimes | Servers/PiecesServer/Services/LegoInMemoryRepository.cpp:110-136 | A piece name alone in an unended last line is taken for the image path and the amount as well, since failed reads leave the string |
| LegoFile.FileRoundTrip | Servers/PiecesServer/Services/LegoInMemoryRepository.cpp:46-136 | Printing any figures (non-empty one-line names and images, piece names other than "*", amounts below two to the power 64) and reading the file gives the last figure of every name, also when up to three characters, which include the last "*", are missing |
| LegoFile.LastFigureCounts | Servers/PiecesServer/Services/LegoInMemoryRepository.cpp:54-59 | Of several figures of one name the last one is kept |
| LegoFile.WrongFirstLineIsRefused | Servers/PiecesServer/Services/LegoInMemoryRepository.cpp:50-52 | Any first line but "Lego source File :: group ESJOJO" is refused |
| LegoFile.BlankLineIsSkipped | Servers/PiecesServer/Services/LegoInMemoryRepository.cpp:54-59 | An empty line between figures changes nothing |
| LegoFile.FigureWithoutImageIsSkipped | Servers/PiecesServer/Services/LegoInMemoryRepository.cpp:71-108 | A figure name followed by an empty line is no figure |
| LegoFile.IncompletePieceEndsFigure | Servers/PiecesServer/Services/LegoInMemoryRepository.cpp:98-136 | A piece without image, or without amount, ends the list of pieces |
| LegoFile.BadAmountThrows | Servers/PiecesServer/Services/LegoInMemoryRepository.cpp:110-136 | After any figures, an amount that `stoull` does not take ends the reading with its exception |
| Decimal.StoullWraps | Servers/PiecesServer/Services/LegoInMemoryRepository.cpp:125-129 | A negative amount is taken modulo two to the power 64 |
| LogFileNames.CreateLogFileName | HarborCLS_Library/Logger/LogFileRotationPolicies/BaseFileRotation.hpp:38-61 | The name up to its last '.', cut at the first marker if there is one, then marker, time and extension |
| LogFileNames.RawNameIsStamped | HarborCLS_Library/Logger/LogFileRotationPolicies/BaseFileRotation.hpp:38-61 | A name without a marker becomes its part before the last '.', or all of it if it has none, then "_logging_on_", the time and ".log" |
| LogFileNames.SettledUnlessOverlap | HarborCLS_Library/Logger/LogFileRotationPolicies/BaseFileRotation.hpp:45-47 | The marker overlaps itself in one character only: behind a text without a marker, an appended marker is the first one found if and only if the text does not end in "_logging_on" |
| LogFileNames.StampedNamesAreStable | HarborCLS_Library/Logger/LogFileRotationPolicies/BaseFileRotation.hpp:38-61 | Stamping a returned name twice is stamping it once with the later time |
| LogFileNames.RawNamesAreStableUnlessDrifting | HarborCLS_Library/Logger/LogFileRotationPolicies/BaseFileRotation.hpp:38-61 | For a raw name the same holds if and only if its stem has a marker or does not end in "_logging_on"; otherwise the second stamping loses those letters |
| LogRotation.BoundedFileRotation.RotateLogFile | HarborCLS_Library/Logger/LogFileRotationPolicies/BoundedFileRotation.hpp:30-48 | A new stamped name when the counter is 0 or has reached the maximum; on rotation, and for a closed stream, the stream is then open on the file the message belongs to, otherwise it stays as it is; files keep their lines, and the 32-bit counter never wraps |
| LogRotation.FileOpenOnDemandPolicy.Log | HarborCLS_Library/Logger/LoggingFileManagementPolicies/FileOpenOnDemandPolicy.cpp:17-37 | One call appends its message to one file and moves name and counter on as the specification says |
| LogRotation.FilesHoldTheirChunks | HarborCLS_Library/Logger/LogFileRotationPolicies/BoundedFileRotation.hpp:30-48 | For any times, calls and earlier files: every file ends up with what it held and then, in order, every group of max(1, M) consecutive messages that was given its name |
| Chunking.ChunksPartition | HarborCLS_Library/Logger/LogFileRotationPolicies/BoundedFileRotation.hpp:31 | The groups are all messages in order; all but the last have exactly max(1, M) messages, the last at least one |
| LogRotation.RotationPartitionsTheLog | HarborCLS_Library/Logger/LoggingFileManagementPolicies/FileOpenOnDemandPolicy.cpp:17-37 | Each group goes to a file that gets nothing else if and only if the times at which files are started differ (for a drifting path, the first of them read as "logging_on_" and the time) |
| LogRotation.DistinctTimesPartitionTheLog | HarborCLS_Library/Logger/LoggingFileManagementPolicies/FileOpenOnDemandPolicy.cpp:17-37 | It does when no two calls see the same time and the path does not drift |
| LogRotation.OtherFilesAreLeftAlone | HarborCLS_Library/Logger/LoggingFileManagementPolicies/FileOpenOnDemandPolicy.cpp:17-37 | The named files exist afterwards and no other file is made or written |
| JsonPolicies.ParsingPolicy.ApplyPoliciesOnSerialization | HarborCLS_Library/JsonReader/ParsingPolicy.hpp:46-50 | The loop writes the attributes in the order of the policies and stops at an exception, keeping what was written |
| JsonPolicies.ParsingPolicy.ApplyPoliciesOnDeserialization | HarborCLS_Library/JsonReader/ParsingPolicy.hpp:35-39 | The loop reads the attributes in the order of the policies and stops at an exception, keeping what was read |
| JsonPolicies.ParsingPolicy.AddPolicy | HarborCLS_Library/JsonReader/ParsingPolicy.hpp:59-63 | The policy is last and the others are unchanged |
| JsonPolicies.FromJsonInvertsToJson | HarborCLS_Library/JsonReader/NlohmannJsonPolicy.hpp:39-55 | An attribute is read back from what was written for it by its own type; the other type refuses it |
| JsonPolicies.NumbersAreReadModulo | HarborCLS_Library/JsonReader/NlohmannJsonPolicy.hpp:49-55 | A JSON integer is read into a 32-bit field modulo two to the power 32, a boolean as 1 or 0 |
| JsonPolicies.SerializationWritesEveryKey | HarborCLS_Library/JsonReader/PolicyOperation.hpp:33-37 | On a null or object document writing never fails; every key holds the attribute of the last policy with that key and other members are kept |
| JsonPolicies.DeserializationReadsEveryKey | HarborCLS_Library/JsonReader/PolicyOperation.hpp:44-55 | Reading succeeds if and only if every key is there and converts, and then every field holds what its key holds |
| JsonPolicies.DeserializationStopsAtFirstFailure | HarborCLS_Library/JsonReader/PolicyOperation.hpp:44-55 | Otherwise the first key that cannot be read is reported and exactly the fields before it have been written |
| JsonPolicies.DeserializationLeavesTheRest | HarborCLS_Library/JsonReader/ParsingPolicy.hpp:35-39 | Whatever no accessor refers to is unchanged, also by a reading that fails |
| JsonPolicies.RoundTripIffSharedKeysAgree | HarborCLS_Library/JsonReader/ParsingPolicy.hpp:35-50 | For independent accessors, writing a value and reading it into any other restores every field if and only if fields that share a key hold the same value |
| JsonPolicies.JsonRoundTrip | HarborCLS_Library/JsonReader/ParsingPolicy.hpp:35-50 | With distinct keys it always does, and leaves the rest of the other value alone |
| ServerConfigurationPolicies.AddAllPolicies | HarborCLS_Library/Server/JsonParsingPolicies/ServerConfigurationParsingPolicy.hpp:18-35 | The eight policies are appended in the order of the source |
| ServerConfigurationPolicies.EachPolicyAccessesItsField | HarborCLS_Library/Server/JsonParsingPolicies/ServerConfigurationParsingPolicy.hpp:18-35 | Each policy reads and writes its own field of the configuration and nothing else |
| ServerConfigurationPolicies.ConfigurationRoundTrip | HarborCLS_Library/Server/JsonParsingPolicies/ServerConfigurationParsingPolicy.hpp:18-35 | A configuration written as JSON and read over any other gives the first one's eight fields and the second one's remaining ones |
| ServerConfigurationPolicies.DocumentIsRead | HarborCLS_Library/Server/JsonParsingPolicies/ServerConfigurationParsingPolicy.hpp:18-35 | A document whose members, under the eight literal keys, are these values is read into these fields, whatever other members it has |
| ServerConfigurationPolicies.DocumentIsWritten | HarborCLS_Library/Server/JsonParsingPolicies/ServerConfigurationParsingPolicy.hpp:18-35 | The document written for a configuration has exactly those eight members with its fields |

## Left out

- Sockets, TLS, UDP broadcast and the system calls below them; the decoy connection of `stop()` is assumed to get through.
- Signal handlers and an interrupted `sem_wait`: `stop()` is an ordinary thread, called once.
- Weak memory and data races: a statement of the source is one step of the model.
- More than one handler per stage (both shipped configurations have one), more than one web application per server.
- An empty list of services, for which `handleSingle` dereferences a null pointer after reporting the error.
- Exceptions thrown by the request parser, a composer or a service inside a thread: they would end the process.
- A null response pointer, which the response handler logs and drops: the response type of the model has no null.
- Set-up and tear-down sequences of services, initialization tasks, logging to the console.
- Dependency injection, MVC controllers, views and templates, logger builder and factory, the other log file and rotation policies.
- The LEGO_REQUEST and LEGO_RESPONSE codec, the request forwarding between the servers, LEGO_RELEASE.
- `RoutingMap::erase(const ServerRoutingInfo&)` of the new table, whose reverse index nothing fills; erasing a server is modelled on the old table.
- The old UDP handler's figure loop.
- The status-code and content-type texts of the composer, and the list of content types that need a body of bytes: parameters.
- CurrentTimeManagement.hpp is not part of this model; any text can be a time.
- Failure to open a log file, the console copy of each message, the lock around `log`; a message counts as one line.
- JSON text and JSON fractions; the type check of PolicyOperation.hpp:49, which compares a type with itself.
- Presence.LegoPresentHandler.HandleSingle: a message without separator, for which the source removes a prefix of length npos, is an error outcome of its own, because the source's behaviour is undefined.
- Presence.HandleDiscover: messages of fewer than two characters, on which the source's iterators are invalid, are not modelled.
- HttpRequest.HttpRequestParser.CreateRequest: a request without CRLFCRLF is an error outcome of its own, because the source then starts the body beyond the end of the request.
- HttpResponse.Response.Compose: the content of a body of bytes after it was moved out is left open.
- HtmlTree.HtmlElement.ToString: requires the elements to form a finite tree; a cycle of elements, for which the source does not return, is not modelled.
- HtmlTree.PrintingIsRecoverable: strings with angle brackets, which the printer does not escape, are not covered.
- HtmlReading.PrintedTreeIsReadBack: the same for quotes in values, '=' in property names and the separators of styles.
- HttpResponse.ResponseFraming: the recipient does not know the request, so responses to HEAD and CONNECT, which have no body whatever their header says, are not told apart; a header with a folded line is refused (section 5.2 of RFC 9112 lets a user agent unfold it instead).
- StageLoops.Listener.Listen: what `obtain` returns and what the flag reads in each round are given; interleaving with `stop()` is in the state machine.
- StageLoops.RequestMiddlewareHandler.Handle: runs alone on its queues, up to an end that is already queued; interleaving is in the state machine.
- StageLoops.BaseWebAppService.Run: runs alone on its queues; interleaving is in the state machine.
- StageLoops.ApplicationMiddlewareHandler.Handle: runs alone on its queues, up to an end that is already queued; interleaving is in the state machine.
- StageLoops.ResponseMiddlewareHandler.Handle: runs alone on its queue, up to an end that is already queued; interleaving is in the state machine.
- StageLoops.ApplicationMiddlewareHandler.OptionalToEnd: waiting for a service is running its loop to the end; interleaving is in the state machine.
- JsonPolicies.JsonRoundTrip: an accessor is a pair of reading and writing functions on a value rather than a reference into an object.
