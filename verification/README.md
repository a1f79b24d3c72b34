# Connection engine of the web server

This project models how the server turns bytes of a connection into requests, and answers
into bytes, and proves what the engine keeps along the way. It has four linked parts.

* **Request parser.** `parser_model.dfy` holds the resumable parser as functions on a value,
  `Intake`: request line, headers, chunked body, Content-Length body, leftover bytes and the
  discard counters. `request_parser.dfy` is the same parser as the imperative code it is, on the
  objects of `client.dfy`, `request.dfy` and `temp_file.dfy`; every method is proved equal to its
  function. Theorems: `fragmentation.dfy` and `stale_discard.dfy` (reads may be cut anywhere),
  `null_location.dfy` (which requests dereference a null location),
  `chunk_codec.dfy` and `length_limit.dfy` (grammar, limits, round trip), `pipelining.dfy`
  (many requests on one connection), `request_framing.dfy` (spellings of the framing headers),
  `body_store.dfy` (memory or disk).
* **Responses.** `response_model.dfy` and `response.dfy` (builders, CGI headers, chunk machine),
  `cgi_stream.dfy` (CGI output on its way to the socket), `stream_receiver.dfy` (what a receiver
  makes of it), `plain_delivery.dfy` (every other response), `framing.dfy` and `framing_names.dfy`
  (announced lengths, header blocks, spellings of header names), `ranges.dfy` (byte ranges).
* **Event loop.** `registry.dfy` (poll vector and maps as values), `cgi.dfy`, and
  `event_processor.dfy`: accept, sweep, registration, removal and the half-duplex protocol.
* **Ground.** `text.dfy`, `numerals.dfy`, `string_order.dfy`, `config.dfy`.

The kernel is nondeterministic: `read` yields some bytes, the end or an error, `send` and `write`
take any part or fail, `accept` and `pipe` yield a descriptor that is not open, the clock and the
exit of a script are arbitrary. Sums that may wrap are written out: `size_t` in `WrapAdd` and
`Request.WrapSub`, `off_t` in `WrapOff` (overflow comes out as two's complement). Text is `string`,
one character for one byte.

## What is proved

* **Fragmentation.** Parsing `a` and then `b` is parsing `a + b`, in every field, and so is any cut
  into reads, unless a discard left over from an earlier chunked body meets a Content-Length body of
  two bytes or more; with such a request ahead, some cut differs. Both directions are proved, from
  the start of a request (`IndependentIffNoHazard`) and inside its body. A refused chunked body leaves
  such a discard over (`StaleDiscardReached`); on a connection of the event loop it is there for the
  next request only if a 413 page is configured (`ReadsDoNotMatter`, `RefusedAndKept`).
* **Chunked bodies.** The loop completes on exactly the buffers that start with a well-formed
  chunked body, consumes exactly that body, and refuses it if and only if its payload is over the
  limit. A loop that is not finished consumed whole chunks and the beginning of one more, and left the
  rest. Encoding and parsing are inverse, in any fragmentation, with any suffix. The stored body
  stays within the limit behind a size line if and only if the guard's sum does not wrap past 2^64
  to an accepted size.
* **Pipelining.** However a stream of well-formed requests is cut into reads, the requests that
  complete are the first ones, in order, and their number is a function of the sizes. All of them
  complete if and only if, for each, there are as many reads from the one that ends it on as there are
  requests from it on: a request that came with the end of its predecessor waits for another read. A
  request without headers is not completed by its own bytes. The parser and a reader who ignores case
  agree on where a body ends if and only if no other spelling of a framing header says otherwise.
* **Streaming.** For every schedule, what the socket took and what waits is what was framed. A
  completed response is the head of the script's own header block, non-empty chunks and one
  terminator, or the error page; a receiver who cuts all that was sent at the first blank line finds the
  headers of that head and then the payload. The head is printed if and only if the script's last
  `Status` line, if any, has a value. The payload is independent of the schedule if and only if no LF LF stands
  before the CRLF CRLF of the output. A response can still be completed, at every point of every run,
  if and only if the script did not fail behind its head.
* **Event loop.** Over every run: no descriptor is registered twice, every pipe stands behind its
  owner, a client has at most one CGI, an entry waits for input or for output but never both, the
  kernel holds exactly the registered descriptors. The half-duplex part ends with the first loss, and
  every run that lost it has that loss on record: bytes with which the parser dereferences a null
  location, or an answer over which a script was launched. Each visit that loses it says at which client,
  and a launch keeps it if and only if nothing was built and nothing waits. A sweep ends although visits
  register and remove entries, and visits every entry once.
* **Framing and ranges.** No sequence of builders produces two framings by exact names; read without
  regard to case, there is one framing if and only if no script spells a framing header differently.
  An accepted range lies in the file if and only if its difference did not overflow or a whole part
  fits behind its start. Repeated range requests give a file back in the least number of 32768-byte
  parts.

## Model

| member | source | states |
|---|---|---|
| Text.DecodeUri | src/httpTcpServer/RequestParser.cpp:64-74 | the in-place loop ends and is the left-to-right replacement of every `%20` |
| Text.DecodedUriHasNoEscape | src/httpTcpServer/RequestParser.cpp:64-74 | no `%20` is left anywhere: inserting a space creates none |
| Text.FtStrTrim | src/utils/utils.cpp:61-70 | both index loops together drop exactly the blanks at either end |
| Text.TrimPadded | src/utils/utils.cpp:61-70 | blanks around a trimmed text are all that is removed |
| Numerals.PrintThenScan | src/httpTcpServer/RequestParser.cpp:191-192 | `strtoul` gives back any number printed in that base, whatever non-digit follows |
| Numerals.PrintThenAtoLl | src/httpTcpServer/Response.cpp:288-291 | `atoll` gives back any printed decimal up to 2^63 - 1 |
| Config.GetMatchLocation | src/utils/utils.cpp:207-227 | the two loops choose the first location with the extension, else the first of the longest paths contained in the URI, else none |
| Config.MatchLocationIsMatch | src/utils/utils.cpp:207-227 | the chosen location meets that description on every path and list |
| StringOrder.SortedKeysEnumerate | src/httpTcpServer/Response.cpp:199-201 | walking the map in key order meets every key exactly once |
| BodyStore.AppendTwice | src/httpTcpServer/Request.cpp:37-58 | two appends are one append of the joined bytes, also across the spill |
| BodyStore.SpillingRefinesAppend | src/httpTcpServer/Request.cpp:37-58 | after any slices the store is their concatenation, on disk if and only if that exceeds the buffer limit |
| TempFiles.TempFile.WriteAll | src/utils/utils.cpp:255-275 | a file that did not fail holds its old bytes and all of the buffer, else a failure is recorded |
| Requests.Request.AppendBody | src/httpTcpServer/Request.cpp:37-58 | without file failures the body becomes the append of the slice; `maxBuffer - _body.size()` does not wrap; -1 only after a failure |
| Requests.Request.ReadAllBody | src/httpTcpServer/Request.cpp:92-114 | the whole body, from memory or disk, and the stored body and file offset stay |
| Requests.Request.WriteBodyToFd | src/httpTcpServer/Request.cpp:73-90 | `true` means that the target grew by exactly the body |
| Requests.Request.GetBodySize | src/httpTcpServer/Request.cpp:160-164 | the length of the body, wherever it is |
| Requests.Request.Cleanup | src/httpTcpServer/Request.cpp:9-35 | a request as new: empty body in memory, no line, no headers, fresh parsers |
| RequestParser.ParseRequestLine | src/httpTcpServer/RequestParser.cpp:76-99 | the method is the line parser of the model, with the decoded URI, its match and its query |
| RequestParser.FindSpaces | src/httpTcpServer/RequestParser.cpp:83-86 | the first two spaces, or a refusal |
| RequestParser.SetRequestLine | src/httpTcpServer/RequestParser.cpp:88-96 | verb, URI before and after `?`, protocol and location of one line |
| RequestParser.PutHeaderLine | src/httpTcpServer/RequestParser.cpp:112-118 | key and value of one line trimmed and stored; a line without colon is skipped |
| RequestParser.ParseRequestHeaders | src/httpTcpServer/RequestParser.cpp:101-120 | the index loop over the buffer reads exactly the lines of the header block |
| RequestParser.DiscardingBody | src/httpTcpServer/RequestParser.cpp:122-137 | the discard counter, flag, buffer and state after one call |
| RequestParser.ParseContentLengthBody | src/httpTcpServer/RequestParser.cpp:139-178 | the whole new parser state and verdict of the model's Content-Length machine; a failed body write, and only that, ends it as PARSE_ERROR |
| RequestParser.ParseChunkBody | src/httpTcpServer/RequestParser.cpp:180-246 | the loop ends and leaves the whole state and verdict of the model's chunk machine; a failed body write, and only that, ends it as PARSE_ERROR |
| RequestParser.ParseRequestBody | src/httpTcpServer/RequestParser.cpp:248-261 | chunked before Content-Length before no body, and the report of a failed write |
| RequestParser.ParseRequestBuffer | src/httpTcpServer/RequestParser.cpp:264-318 | the whole new parser state and verdict of the model, from any phase; a failed body write completes the request as PARSE_ERROR |
| Fragmentation.ChunksFeed | src/httpTcpServer/RequestParser.cpp:180-246 | later bytes only continue an unfinished chunked parse and stay untouched behind a finished one |
| Fragmentation.ChunksKeep | src/httpTcpServer/RequestParser.cpp:180-246 | the chunk loop touches body, counters, buffer, flag and state only, and the memory limit holds |
| Fragmentation.FragmentationIndependence | src/httpTcpServer/RequestParser.cpp:264-318 | if `a` does not complete the request, `a` then `b` equals `a + b` in every field; if it does, `b` is left unread; from every state between two calls, unless the head in the buffer meets a leftover discard |
| Fragmentation.AnyFragmentation | src/httpTcpServer/RequestParser.cpp:264-318 | any cut of the bytes into reads ends like a single read, under the same condition on all the bytes |
| StaleDiscardCase.StaleDiscardReached | src/httpTcpServer/RequestParser.cpp:122-246 | from a connection that discards nothing, a chunked body over the limit ends as PARSE_TOO_LARGE, and behind the reset the discard is left over |
| StaleDiscardCase.HazardIff | src/httpTcpServer/RequestParser.cpp:139-164 | such a discard meets exactly the requests with a Content-Length of at least two that is within the limit |
| StaleDiscardCase.StaleDiscardShows | src/httpTcpServer/RequestParser.cpp:159-164 | with that flag left over there are two reads that differ from one |
| StaleDiscardCase.IndependentIffNoStaleDiscard | src/httpTcpServer/RequestParser.cpp:139-178 | inside a Content-Length body the reads do not matter if and only if no discard is left over |
| StaleDiscardCase.IndependentIffNoHazard | src/httpTcpServer/RequestParser.cpp:264-318 | from the start of a request with a given head the cuts do not matter if and only if no leftover discard meets a Content-Length body of two bytes or more |
| NullLocationCase.RequestCrashesIff | src/httpTcpServer/RequestParser.cpp:148-195 | a request that reached its body dereferences a null location if and only if it has none and either is chunked with a size line and not discarding, or has a Content-Length |
| NullLocationCase.LocationNullIff | src/utils/utils.cpp:207-227 | the location is null exactly if no configured one matches the URI by extension or path |
| ChunkCodec.MessageParsed | src/httpTcpServer/RequestParser.cpp:180-246 | a well-formed chunked body is consumed to its last byte, what follows stays, and the kept text is what chunk after chunk was admitted |
| ChunkCodec.MessageFound | src/httpTcpServer/RequestParser.cpp:184-245 | conservation: whenever the loop completes, the buffer was well-formed chunks, a last size line with two bytes, and exactly the bytes that are left |
| ChunkCodec.UnfinishedFound | src/httpTcpServer/RequestParser.cpp:184-245 | conservation for an unfinished loop: the buffer was whole well-formed chunks, the beginning of one more as the parser's state says, and what is left, which that state cannot use yet |
| ChunkCodec.CompletesIffMessage | src/httpTcpServer/RequestParser.cpp:180-246 | the loop completes on exactly the buffers that start with a complete chunked body |
| ChunkCodec.AdmitAllExact | src/httpTcpServer/RequestParser.cpp:194-197 | discarding starts if and only if the chunk sizes sum to more than the limit |
| ChunkCodec.BodyLimitExact | src/httpTcpServer/RequestParser.cpp:180-246 | PARSE_TOO_LARGE if and only if the payload is over the limit, else PARSE_OK with the full body |
| ChunkCodec.LimitHeldInFlight | src/httpTcpServer/RequestParser.cpp:180-246 | at no point of a run, finished or not, is more stored than the limit, if no guard's sum wraps unnoticed |
| ChunkCodec.SizeLineKeepsLimit | src/httpTcpServer/RequestParser.cpp:194-213 | whatever bytes of its chunk follow a size line, no stored byte is over the limit, if and only if the guard's sum does not wrap to an accepted size |
| ChunkCodec.WrappingSizeLine | src/httpTcpServer/RequestParser.cpp:184-246 | from a body that starts: one byte, a size line of sixteen `f` and more bytes than allowed are all stored |
| ChunkCodec.RoundTrip | src/httpTcpServer/Response.cpp:40-61 | encoded pieces plus any suffix, in any fragmentation, parse to the concatenation and leave exactly the suffix |
| LengthLimit.LengthLimitExact | src/httpTcpServer/RequestParser.cpp:144-178 | a body of announced length is refused, with nothing stored, if and only if it is over the limit; else stored in full and what follows is left |
| LengthLimit.LengthLimitInReads | src/httpTcpServer/RequestParser.cpp:139-178 | the same however the body is cut into reads |
| LengthLimit.LengthLimitInFlight | src/httpTcpServer/RequestParser.cpp:139-178 | no call stores more than the limit, and an unfinished body stays within it |
| Pipelining.MessageIsParsed | src/httpTcpServer/RequestParser.cpp:264-318 | one call completes one well-formed request in every field and leaves what follows |
| Pipelining.PipelinedRequests | src/client/clientManager.cpp:44-56 | n rounds of parse and reset yield n requests in order and leave exactly the tail |
| Pipelining.StreamServedInOrder | src/httpTcpServer/RequestParser.cpp:264-318 | for any cut of a stream of well-formed requests the completed ones are the first, in order, and as many as the sizes of the reads say |
| Pipelining.CountIsAllIff | src/httpTcpServer/RequestParser.cpp:264-318 | that number is all of them if and only if every request has enough reads from its end on |
| Pipelining.AllServedIff | src/httpTcpServer/RequestParser.cpp:264-318 | all requests complete if and only if, for each, there are as many reads from the one that ends it on as requests from it on |
| Pipelining.NoHeaderRequestWaits | src/httpTcpServer/RequestParser.cpp:282-291 | a complete request without headers stays incomplete: its CRLF is gone when the blank line is looked for |
| Pipelining.CompletesIffHeaders | src/httpTcpServer/RequestParser.cpp:268-296 | a request without body, alone in the buffer, completes if and only if it has a header line |
| RequestFraming.ReadersAgreeIff | src/httpTcpServer/RequestParser.cpp:248-260 | the parser and every reader who ignores case agree on the body if and only if no other spelling of a framing header changes it |
| RequestFraming.SmallLetterBody | src/httpTcpServer/RequestParser.cpp:255-260 | `content-length: 5` completes without a body, and its five bytes stay for the next request line |
| Responses.Response.InitFromRequest | src/httpTcpServer/Response.cpp:15-30 | protocol and connection header taken from the request |
| Responses.Response.InitChunked | src/httpTcpServer/Response.cpp:32-39 | chunked once: default headers, no length, transfer coding set |
| Responses.Response.FinishCgiChunked | src/httpTcpServer/Response.cpp:40-45 | the terminator is appended exactly once |
| Responses.Response.AppendChunk | src/httpTcpServer/Response.cpp:51-61 | a non-empty piece becomes one chunk and the piece is used up |
| Responses.Response.ParseCgiHeaders | src/httpTcpServer/Response.cpp:62-133 | the line loop yields status, headers and default type of the block, and leaves what follows its separator |
| Responses.Response.AppendCgiChunk | src/httpTcpServer/Response.cpp:135-151 | the whole response and the unframed rest after a middle or a final call |
| Responses.Response.ConsumeOutBuffer | src/httpTcpServer/Response.cpp:160-164 | hands the framed bytes over and changes nothing else |
| Responses.Response.SetDefaultHeaders | src/httpTcpServer/Response.cpp:179-189 | date, length of an unchunked body, connection |
| Responses.Response.BuildResponseString | src/httpTcpServer/Response.cpp:191-208 | status line, header lines in key order, blank line, and the body unless chunked; nothing without a status |
| Responses.Response.BuildResponse | src/httpTcpServer/Response.cpp:216-222 | status, body and default headers |
| Responses.Response.BuildErrorResponse | src/httpTcpServer/Response.cpp:250-265 | a configured page as a file response that leaves the connection as asked, else the generated page as HTML with a closing connection for 4xx and 5xx |
| CgiStream.StreamedInOrder | src/httpTcpServer/Response.cpp:62-164 | every schedule of pipe reads, visits and partial or failed sends conserves the framed bytes, with any clock, page and cookie; a reset client has sent the head of the script's header block, the output behind it as non-empty chunks, and one terminator, or the whole error page of a script that failed before its head |
| CgiStream.HeadPrintedIff | src/httpTcpServer/Response.cpp:104-145 | the head is non-empty if and only if the script's last `Status` line, if it has any, has a value |
| CgiStream.EmptyStatusHidesHead | src/httpTcpServer/Response.cpp:104-113 | the output `Status:` alone gets an empty head: `buildResponseString` prints nothing |
| CgiStream.StatusRead | src/httpTcpServer/Response.cpp:83-124 | the loop over the header lines keeps the last `Status`; its code is empty exactly if its value is |
| CgiStream.ScheduleInvisibleIff | src/httpTcpServer/Response.cpp:65-74 | every completing schedule delivers everything behind the separator if and only if no LF LF precedes the CRLF CRLF |
| CgiStream.CompletesIffNotFailedBehindHead | src/EventProcessor.cpp:356-446 | at every point of every run some continuation completes the response, if and only if the script did not fail after its head went out |
| CgiStream.FailureAfterHeadNeverCompletes | src/EventProcessor.cpp:370-371 | a script that fails after its head leaves a response no continuation completes |
| CgiStream.FailureIsReached | src/EventProcessor.cpp:363-376 | a header line, a visit and a failed exit reach that state from a launch |
| CgiStream.ReadBack | src/httpTcpServer/Response.cpp:40-61 | the sent stream, read by the repository's own parser in any fragmentation, is the script's payload, and the suffix is left |
| StreamReceiver.ReceiverReadsStream | src/httpTcpServer/Response.cpp:40-151 | if its head can be parsed back, all that a completed stream sent, cut at the first CRLF and the first blank line, gives the headers of its head, and behind them, in any fragmentation, the script's payload |
| PlainDelivery.PlainResponseDelivered | src/EventProcessor.cpp:174-187 | although the router runs again on every POLLOUT, the bytes sent and waiting are the first answer, and the client is reset exactly when all of them are sent |
| Framing.HeaderRoundTrip | src/httpTcpServer/Response.cpp:199-203 | printed headers parse back to the same map, for trimmed keys and values without CR and keys without colon |
| Framing.FramingExclusive | src/httpTcpServer/Response.cpp:179-222 | any sequence of builders ends chunked without length, or with exactly the body's length and no coding, by the exact names the builders use |
| FramingNames.ReceiverSeesOneFramingIff | src/httpTcpServer/Response.cpp:32-39 | read without regard to case, any sequence of builders leaves exactly one framing if and only if no script prints a framing header in another spelling |
| FramingNames.FreshSeesOneFramingIff | src/httpTcpServer/Response.cpp:4-7 | the same from the response of a new connection |
| FramingNames.StreamHeadFramedIff | src/httpTcpServer/Response.cpp:143-145 | the same for the head a stream puts on the wire |
| FramingNames.SmallLetterLength | src/httpTcpServer/Response.cpp:37-38 | a script that prints `content-length: 5` gets a head with that line and a transfer coding |
| Framing.ReceiverSeesBody | src/httpTcpServer/Response.cpp:191-208 | a receiver that cuts at the first CRLF and the first blank line finds the same headers and exactly the announced number of bytes, the body |
| Ranges.ParseRange | src/httpTcpServer/Response.cpp:271-307 | acceptance and both bounds, for every header value, with sums that wrap at 64 bits |
| Ranges.ClampAccepts | src/httpTcpServer/Response.cpp:293-303 | exactly which pairs of numbers are accepted, and as which range |
| Ranges.RangeInBoundsIff | src/httpTcpServer/Response.cpp:288-303 | an accepted range is at most 32768 bytes long and starts in the file; it ends in the file if and only if the difference did not overflow or 32768 bytes fit behind the start |
| Ranges.OverflowingRange | src/httpTcpServer/Response.cpp:299-300 | `bytes=2--9223372036854775808` on ten bytes is accepted as 2 to 32769 |
| Ranges.ReadSlice | src/httpTcpServer/Response.cpp:322-336 | the block loop returns exactly the slice, cut at the end of the file |
| Ranges.RangeLengthExact | src/httpTcpServer/Response.cpp:338-345 | the announced length is right if and only if the file still reaches the last byte |
| Ranges.FromByteRange | src/httpTcpServer/Response.cpp:276-304 | `bytes=k-` is accepted if and only if k is inside the file, and then ends at the file's end or after 32768 bytes |
| Ranges.RangesTile | src/httpTcpServer/Response.cpp:271-346 | asking again from the byte behind the last slice gives the rest of the file back exactly, in ceil(n / 32768) requests |
| Clients.Client.ConsumeReadBuffer | src/client/client.cpp:122-127 | drops n bytes, or all there are |
| Clients.Client.ReadFromClientSocket | src/client/client.cpp:149-169 | appends what was read, or keeps the buffer and notes the failure |
| Clients.Client.PrepareWriteBuffer | src/client/client.cpp:188-196 | the write side moves as the delivery machine says |
| Clients.Client.SendToClientSocket | src/client/client.cpp:171-186 | what the socket took leaves the buffer's front; a failure changes nothing |
| Clients.Client.FinalizeChunkedWrite | src/client/client.cpp:198-203 | a response ends being chunked only with an empty buffer behind its terminator |
| Clients.Client.ResetState | src/client/clientManager.cpp:44-56 | request, response and write buffer as new; read buffer and discard counters survive |
| Cgis.Cgi.ReadFromPipe | src/httpTcpServer/cgi/Cgi.cpp:225-242 | output only grows, and only on success |
| Cgis.Cgi.AppendOutputToResponse | src/httpTcpServer/cgi/Cgi.cpp:217-219 | response and unframed output after a middle call |
| Cgis.Cgi.AppendFinalOutputToResponse | src/httpTcpServer/cgi/Cgi.cpp:221-223 | response and unframed output after the last call |
| Registry.AddClient | src/EventProcessor.cpp:63-70 | a new client keeps vector and maps consistent |
| Registry.AddPipe | src/EventProcessor.cpp:221-233 | a pipe of a client without CGI keeps them consistent, behind its owner |
| Registry.ErasePipe | src/EventProcessor.cpp:252-261 | removing a pipe keeps them consistent |
| Registry.EraseClient | src/EventProcessor.cpp:110-116 | removing a client without CGI keeps them consistent |
| EventProcessors.HandlersDeliver | src/EventProcessor.cpp:356-446 | one POLLOUT of a client with a script is one step of the delivery machine, whatever clock, page and cookie contribute |
| EventProcessors.VisitedIds | src/EventProcessor.cpp:27-30 | a visit adds its entry to those seen and leaves every later one unseen, whatever it registered or removed |
| EventProcessors.VisitedClients | src/EventProcessor.cpp:27-30 | a visit of a client leaves strictly fewer clients to come |
| EventProcessors.ClientProgress | src/EventProcessor.cpp:327-333 | nothing below the index changes, the entries to come are polled and unseen, and the sweep's measure decreases |
| EventProcessors.PipeProgress | src/EventProcessor.cpp:327-333 | the same for the visit of a pipe |
| EventProcessors.EventProcessor.constructor | src/EventProcessor.cpp:3-7 | the listeners alone are a valid registry |
| EventProcessors.EventProcessor.RegisterCgi | src/EventProcessor.cpp:221-244 | the pipe is appended to vector, map and kernel, the client owns it, and all links hold |
| EventProcessors.EventProcessor.CleanupCgi | src/EventProcessor.cpp:246-275 | exactly the pipe's entry goes, which stands behind its owner's; map, client and kernel follow |
| EventProcessors.EventProcessor.Close | src/EventProcessor.cpp:116-116 | only a descriptor that is still open is closed, so none is closed twice |
| EventProcessors.EventProcessor.DropClient | src/EventProcessor.cpp:104-116 | exactly one client leaves vector, map, address map and kernel |
| EventProcessors.EventProcessor.DropWithCgi | src/EventProcessor.cpp:82-119 | the client's pipe goes first, and the index still hits the client |
| EventProcessors.EventProcessor.CloseClientConnection | src/EventProcessor.cpp:304-325 | the same on a regular close |
| EventProcessors.EventProcessor.CloseIdleConnection | src/EventProcessor.cpp:283-302 | only a client without CGI is closed, and only its entry goes |
| EventProcessors.EventProcessor.HandleResponse | src/EventProcessor.cpp:405-446 | the write side moves as the delivery machine says; reset exactly when all is out, then POLLIN, else POLLOUT |
| EventProcessors.EventProcessor.PushOut | src/EventProcessor.cpp:409-424 | prepare, send and finalize are the delivery machine's step |
| EventProcessors.EventProcessor.SendAndReset | src/EventProcessor.cpp:409-441 | a client with a live script is never reset; a reset one listens again |
| EventProcessors.EventProcessor.StreamCgi | src/EventProcessor.cpp:364-366 | a live script's output joins the response by a middle call |
| EventProcessors.EventProcessor.CompleteCgi | src/EventProcessor.cpp:367-376 | the error page if the script failed, else a middle and a final call |
| EventProcessors.EventProcessor.HandleCgiIO | src/EventProcessor.cpp:356-380 | the response is what the script's output and exit make of it, and a script that is over leaves registry and client |
| EventProcessors.EventProcessor.LaunchCgi | src/httpTcpServer/Router.cpp:31-56 | client and pipe linked and the state changed, or an error page and nothing registered; a launch keeps the half-duplex protocol if and only if nothing was built and nothing waits |
| EventProcessors.EventProcessor.FailedThenLaunched | src/httpTcpServer/Router.cpp:36-55 | a failed launch and a successful one at the next POLLOUT lose the protocol, with a page to send and a script that lives |
| EventProcessors.EventProcessor.ProcessRequest | src/EventProcessor.cpp:382-403 | 413 for an oversized and 500 for a failed request, unless a configured page is asked by range; a script only for a complete one, launched at any POLLOUT |
| EventProcessors.EventProcessor.AnswerError | src/httpTcpServer/Response.cpp:250-265 | the status of the error, and a closing connection for 4xx and 5xx whenever no page is configured for it |
| EventProcessors.EventProcessor.AnswerRequest | src/EventProcessor.cpp:178-180 | the router's answer or a new pipe; the protocol is lost exactly by a launch over an answer |
| EventProcessors.EventProcessor.Lose | src/httpTcpServer/Router.cpp:31-56 | the invariant ends only with a genuine loss, which is noted |
| EventProcessors.EventProcessor.Answer | src/EventProcessor.cpp:174-181 | script or router, and what that did to the vector |
| EventProcessors.EventProcessor.AnswerAndSend | src/EventProcessor.cpp:174-183 | for scripts and for plain answers, the write side takes one step of the delivery machine on what was built; while the protocol holds the entry is not written after the vector grew |
| EventProcessors.EventProcessor.ProcessWrite | src/EventProcessor.cpp:174-187 | the client keeps the half-duplex protocol or is closed, unless a script was launched over an answer, and nothing else changes but its pipe |
| EventProcessors.EventProcessor.ReadAndParse | src/EventProcessor.cpp:159-170 | the parser runs on listening clients only, on what was read before and now; a complete request makes the client one being answered |
| EventProcessors.EventProcessor.ProcessRead | src/EventProcessor.cpp:152-172 | only a complete request turns the entry to POLLOUT; the protocol is lost exactly by bytes with which the parser dereferences a null location, and these are noted |
| EventProcessors.EventProcessor.ProcessPipeEvents | src/EventProcessor.cpp:200-217 | output only grows, and the client learns of the end exactly on a hang-up of a script that is over |
| EventProcessors.EventProcessor.ProcessClientEvents | src/EventProcessor.cpp:189-219 | both events of one visit, with what they did to the vector; a loss comes from what this client had received or was answering |
| EventProcessors.EventProcessor.VisitPipe | src/EventProcessor.cpp:189-219 | visiting a pipe keeps the registry invariant |
| EventProcessors.EventProcessor.VisitClient | src/EventProcessor.cpp:82-119 | visiting a client keeps the protocol of all entries, or notes the genuine loss at this client |
| EventProcessors.EventProcessor.HandleClientIndex | src/EventProcessor.cpp:327-333 | every visit keeps the registry invariant and brings the sweep nearer to its end; the protocol is lost only at the visited client, for a genuine reason that is noted |
| EventProcessors.EventProcessor.Sweep | src/EventProcessor.cpp:27-30 | the index loop ends, and every entry then registered was visited exactly once, unless a genuine loss is on record |
| EventProcessors.EventProcessor.AddClient | src/EventProcessor.cpp:60-72 | the accepted socket joins vector, client map, address map and kernel, as a client of its listener's server |
| EventProcessors.EventProcessor.AcceptFrom | src/EventProcessor.cpp:49-75 | the vector only grows, by entries that wait for input and report nothing |
| EventProcessors.EventProcessor.AcceptConnections | src/EventProcessor.cpp:42-80 | the same over all listeners, with the early return on a hard error |
| EventProcessors.EventProcessor.Run | src/EventProcessor.cpp:11-40 | any number of rounds keeps the registry invariant, and the protocol unless a genuine loss is on record: a null location dereferenced, or a launch over an answer |
| EventProcessors.EventProcessor.FailedPoll | src/EventProcessor.cpp:21-30 | after a read that completed its request and a failed `poll`, the entry still reports input and its client is being answered: the next read is outside the protocol |
| EventProcessors.EventProcessor.RefusedAndKept | src/httpTcpServer/Response.cpp:250-260 | with a configured 413 page and a request that keeps its connection, a refused chunked body ends in a listening client with the discard left over |
| EventProcessors.EventProcessor.ReadsDoNotMatter | src/httpTcpServer/RequestParser.cpp:264-318 | in every run, a listening client of a server without a 413 page meets the conditions of the fragmentation theorem, whatever bytes come next |
| EventProcessors.EventProcessor.EntriesAre | src/EventProcessor.cpp:27-30 | no descriptor is registered twice, the listeners keep their places, every other entry is one client or one pipe, and every map key has its entry |
| EventProcessors.EventProcessor.PipesHaveOwners | src/EventProcessor.cpp:246-275 | an owner's entry stands before its pipe's, waits for output, and has no other CGI |
| EventProcessors.EventProcessor.WaitingClientIsIdle | src/EventProcessor.cpp:152-187 | exactly POLLIN or exactly POLLOUT; a client waiting for input owns no CGI and has nothing to send |

Several members are parts of one source function, cut where its blocks end: `StartBlock`,
`HeaderBlock`, `BodyBlock`, `SizeCase`, `DataCase`, `CrlfCase`, `StoreOrDrop`, `ReadLengthBody` and
`FinishRequest` of the parser, `ClampEnd` of the ranges, `FindSeparator`, `ReadBlock`, `TakeHead` and
`PrintHeaders` of the response, and `PushOut`, `SendAndReset`, `FindPage`, `AnswerError`, `StreamCgi`,
`FinishCgi`, `CompleteCgi`, `EndCgi`, `AnswerRequest`, `Answer`, `AnswerAndSend`, `DropClient`,
`DropWithCgi`, `WritePipe`, `ErasePipe`, `FindPipe`, `EraseClient`, `WriteClient`, `EnterTables`,
`EnterClient`, `CloseVisited`, `ServeClient`, `VisitClient`, `VisitAndHold` and `VisitNext` of the event
loop.

## Where code and expectation part

* A matched location may be null (`src/httpTcpServer/RequestParser.cpp:148` and `:195` dereference
  it). The parser model then stops with the verdict `NullLocation`, and the event loop's invariant is
  `lost`; `RequestCrashesIff` and `LocationNullIff` say when.
* `discardingBody` is not reset with the client: after a refused chunked body the next
  Content-Length body of two bytes or more, if within the limit, depends on how it is cut into reads. The
  generated 413 page closes the connection, so a next request exists only if a 413 page is configured
  and the refused request kept its connection.
* `parseRequestBody` takes `Content-Length` and `Transfer-Encoding` by exact spelling, against section
  3.2 of RFC 7230: a body announced in small letters is read as the next request.
* After a body refused by its Content-Length, following bytes are discarded a second time. The
  statements on such bodies cover outcome, headers and store, not the tail.
* `poll` that fails leaves old reports behind, and the loop sweeps on them. `Run` covers rounds whose
  `poll` succeeds; `FailedPoll` shows the read and the failed `poll` that leave the protocol.
* The exit status of a script counts even after its head went out: such a response never completes.
* A script that prints an empty `Status` gets no head: its chunks start the response.
* A script's own spelling of `Content-Length` or `Transfer-Encoding` passes `initChunked`.
* The router runs again on every POLLOUT. After a failed launch it may launch once more while the error
  page is partly sent; `handleResponse` then writes its entry through a reference into the old vector.
  The model stops at that point, and the invariant is `lost`.
* A request that arrives in the same read as the end of its predecessor stays unparsed until more bytes
  arrive.
* A `write` that returns 0 ends `writeAll` without an error. The body contracts therefore hold as
  long as no file call failed or wrote short (`Request.Sound`).
* `Content-Length` of a range response is the accepted length, not the number of bytes read; they
  differ if the file ends before the range does (`RangeLengthExact`): because it shrank, or because
  the range was accepted after an overflow.
* The branch of `removeDeadConnections` for an entry without client and without CGI cannot be
  reached: `EntriesAre` excludes such entries.

## Left out

- Routing: which answer the router builds is arbitrary (status, body, headers), and so is when it
  launches a script.
- RequestParser.ParseRequestLine: does not store the matched directory (`getMatchDirectory`, the same
  loop as the second one of `getMatchLocation`).
- RequestParser.SetRequestLine: does not store the matched directory either.
- RequestParser.ParseRequestBuffer: `parsePath` is not part of it: the URI is not cut behind a CGI
  extension, and PATH_INFO is not split off.
- Sessions and cookies: a `Set-Cookie` header with arbitrary value may be added where the code does.
- CGI environment, `fork`, `exec`, `waitpid`, signals: only the pipe, the exit status and the
  ownership of the descriptor are kept.
- Responses.Response.BuildErrorResponse: whether a configured page can be read, its contents and its type
  are arbitrary, and so is the text of a generated page. Of a part of a page asked by range, Content-Range
  is left out and the announced length is taken as the part's own; pages of refused ranges that refuse
  their own range again, without end, are not modelled.
- File responses, MIME types, autoindex, redirects, uploads (multipart), reading the configuration.
- Shutdown: descriptors are accounted for while the loop runs.
- Idle times: the clock decides freely whether an idle client is closed; no eventual close is claimed.
- Destructors and memory: objects that leave a map are forgotten, and descriptors leave `open`.
- Cgis.Cgi.HasFinished: `waitpid` is arbitrary, but once a script was reaped its status stays.
- Ranges.ParseRange: an overflow of `off_t` is taken as two's complement, which the language leaves
  undefined. A suffix range `bytes=-n` is read as 0 to n, as the code does, against section 2.1 of
  RFC 7233.
- Text.FtStrTrim: the `unsigned int` lengths are unbounded, and the blanks are the six of the C locale.
- EventProcessors.EventProcessor.AcceptFrom: the kernel's queue is finite but arbitrary; the address of
  the peer is not kept, only that the server's map has its descriptor as a key.
- EventProcessors.EventProcessor.Run: it ends with the rounds, a null location or a launch over an
  answer; liveness is not claimed.
- Responses.Response.ParseCgiHeaders: the lines of the block come from a function, not from a stream.
- Logging, HTML text and debug output.
