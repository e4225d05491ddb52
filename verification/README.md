# webserv: a verified model

webserv is an HTTP/1.1 server with one epoll loop, CGI programs and an nginx-like configuration
file. This project models its hardest components in Dafny and proves what they promise, for every
input, every run and every cutting of the input into received pieces. `dafny verify dfyconfig.toml`
checks the whole project.

Each imperative component appears twice. A class or method has the source's fields, loops and
branches, and is proved equal to a function; theorems about that function say what the component is
for. Grammars and printed forms, written without reference to the parsers, are the other half of
most theorems.

| files | component | central statement |
|---|---|---|
| `text`, `scanner`, `stream_parser` | character tests, scanning loops, the header line reader shared by both stream parsers | a line is read exactly when it was printed |
| `request_head`, `head_theorems`, `field_theorems` | method, target, version, header section and the values it decides on | the head parser inverts printing, every field is recovered, and its cursor is the separately computed end of the head |
| `head_refusals`, `syntax_refusals` | what malformed or unacceptable heads are refused with | acceptance and status for every printed head, on its header values alone |
| `chunked`, `chunk_refusals` | the resumable chunked decoder with its 64-bit arithmetic | it accepts exactly the grammar, can stop anywhere, never appends a chunk twice, and which waiting states can still finish |
| `request_parser`, `request_theorems`, `http_request` | StreamParser with HttpRequest | any cutting is one call, exactly unless input follows a body completed by Content-Length |
| `kernel`, `event_loop`, `event_theorems`, `timeouts`, `event_runs`, `event_requests`, `event_answers`, `webserv` | Webserv, ClientSocket, CgiSocket, ServerSocket, with the kernel's interest list and inherited descriptors | ownership, liveness of every pointer in use, single dispatch, send and reap accounting over all runs, exactly as long as no timeout leaves a stale entry in the interest list; each request that is handled is the one that was received, and each client is sent exactly the answer to it |
| `paths` | FileValidator and index resolution | canonical normal forms; accepted paths stay below the root |
| `server_config`, `routing_theorems`, `request_handler`, `request_actions` | ServerConfig's search and RequestHandler's path logic | unique longest match; the file for a URI on segments; which roots work; the exact outcome of every request |
| `tokenizer`, `config_grammar`, `config_parser`, `config_theorems`, `config_values`, `configured_routing` | ConfigParser | exactly the layouts of the grammar are accepted, and what they guarantee to routing |
| `header_order`, `http_response`, `cgi_response`, `cgi_theorems`, `cgi_fields` | HttpResponse and CgiResponseParser | printing and parsing are inverse, exactly where they can be; what every line of either says |
| `cgi_path`, `cgi_roots` | the script and path-info split of CgiExecutor | where a path splits, that the parts are the path, and when the script lies below the root |
| `end_to_end` | configuration text, received bytes, path logic | over all runs, only paths below the root of the deepest location are used |

How the model reads the source:

- A `std::string` is a Dafny `string`; `At(s, i)` is `c_str()[i]`, so an embedded NUL stops the
  scanning loops as it does in the source.
- A thrown status is an `Err`, a thrown `runtime_error` of the configuration parser a `None`, a
  `false` or a `Fail`. An object is not used after a throw: its fields are then left unspecified.
- `size_t` and `ptrdiff_t` are written out: the shift guard, the shift, the cast to the signed
  field with its sentinel -1 and the cast back are functions modulo 2^64.
- The body limit is below 2^63, as every configuration gives it; a buffer is no longer than
  `std::string::max_size()`.
- Deleting a socket removes its address from the modelled heap, so every dereference in the event
  loop is a proof obligation that the socket is live. Results of system calls are arbitrary, but
  accept, socketpair, fork and `new` hand out what is not in use, and epoll reports distinct entries
  of its interest list, live sockets with events their mask asks for.
- The kernel's part of the event loop is state: the file behind each descriptor, the interest list
  (EPOLL_CTL_ADD enters the socket's address, EPOLL_CTL_DEL succeeds exactly if the descriptor is
  registered), and the descriptors each child inherited, since none is close-on-exec. close() and
  the end of a process drop an entry exactly when no descriptor of its file is left anywhere.
  Children end, fork and close descriptors at any time between two steps of the loop.
- `std::atoi` beyond the range of int, which C leaves undefined, is `strtol` cut to 32 bits.
- `std::map` iterates in the ascending order of `std::string`; the text of the date is any text.
- The history of a connection, what recv, RequestHandler::Run and read returned and which status was
  thrown, is kept beside the fields of the source, so that what a client is sent can be stated.

What the proofs show about the code as it is (the code is modelled unchanged):

- A request cut right behind a body completed by Content-Length is not the same as one call: the
  later piece is answered with 400. This is the only such place
  (`CuttingMattersExactlyAfterContentLength`).
- CgiSocket inherits the empty HandleTimeout and is closed without EPOLL_CTL_DEL, and a child keeps
  the descriptors that were open when it was forked. So when CheckTimeout deletes a CgiSocket while
  a program started after it still runs, its entry stays in the interest list with the address of
  freed memory (`FreedSocketIsReported`). This is the only way to a stale entry, and none is left
  if the same call waits for every process that holds the descriptor (`LiveExactlyWithoutLeaks`).
- A CGI path is split at a segment that ends in an allowed extension, even at a segment of the root:
  then the script that runs lies above the root (`ScriptAboveRoot`, `ScriptIsBelowExactly`).
- A size line of a chunked body that starts with CR is neither refused nor ever completed: the
  connection waits until its timeout. It is the only such state (`WaitsForEverExactly`).
- An absolute `root` directive is stored as written, a relative one keeps a trailing slash
  (`RelativeRootsAreCanonical`). Below a root with a trailing slash or a dot segment nothing is ever
  accepted but the root itself (`OtherRootsServeThemselves`), and a location without a root answers
  400 (`DefaultRootAnswersBadRequest`).
- A "//" inside the part of a URI that a location's name covers prevents the match, and only there
  (`MatchMeansCovered`).
- Output of a CGI program that cannot be read makes ParseCgiResponse throw 502, but the client is
  sent 500, and a failed program is answered with 500 without headers or body (`ClientsAreAnswered`).
- For CGI output with bare LF line ends, a CRLFCRLF inside the body moves the end of the head
  (`LenientBodyIsCut`); `PrintedOutputIsExact` gives the exact condition.

## Model

| member | source | states |
|---|---|---|
| `RequestTheorems.AnyCuttingIsOneCall` | srcs/lib/parser/StreamParser.cpp:18-36 | From any reachable unfinished state, feeding non-empty pieces one by one gives the same final state or the same thrown status as one call on their concatenation, if and only if no piece arrives after the request completed by Content-Length |
| `RequestParser.CuttingMattersExactlyAfterContentLength` | srcs/lib/parser/StreamParser.cpp:18-36 | The two-piece case for all a and b: Parse(a);Parse(b) equals Parse(a+b) if and only if a did not already complete the request by Content-Length (for an empty b: not at all); an early stop, a kept chunk size and a kept read position lose nothing |
| `RequestParser.ParseExtends` | srcs/http_request/HttpRequest_advanceBodyParsing.cpp:93-192 | What more input does to an outcome: a throw stays the same throw, an incomplete request goes on exactly as if the input had arrived at once, a finished one keeps the new bytes or refuses them |
| `RequestTheorems.DoneMeansOneRequest` | srcs/http_request/HttpRequest_advanceHeaderParsing.cpp:20-41 | kDone is reached exactly on a printed request head followed by a body framed as that head says, and then with exactly its fields, its body and the bytes behind a Content-Length body |
| `RequestTheorems.RequestSurvivesAnyDelivery` | srcs/lib/parser/StreamParser.cpp:18-36 | A printed request with a framed body, cut into any non-empty pieces, ends in kDone with its fields and payload, and no proper prefix of it does |
| `RequestTheorems.ChunkedRoundTrip` | srcs/http_request/HttpRequest_advanceBodyParsing.cpp:93-192 | Every list of non-empty blocks within the limit, sent as chunks in any pieces, arrives as the concatenation of the blocks |
| `RequestTheorems.BodyIsReadExactly` | srcs/http_request/HttpRequest_advanceBodyParsing.cpp:52-89 | From the start of the body, reading finishes exactly on bodies framed by the recorded length or by chunks, leaving exactly what follows |
| `RequestParser.ParseKeepsValid` | srcs/lib/parser/StreamParser.cpp:18-36 | Every call keeps the parser invariant, never moves the phase back, and never lets the body pass the limit |
| `RequestParser.AdvanceHeaderContract` | srcs/lib/parser/StreamParser.cpp:22-25 | AdvanceHeader leaves the state alone or moves exactly to the body with a framed head, so OnInternalStateError is unreachable there |
| `RequestParser.AdvanceBodyContract` | srcs/lib/parser/StreamParser.cpp:27-30 | AdvanceBody stays in the body or reaches kDone with a valid state, so OnInternalStateError is unreachable there |
| `Chunked.DecodesExactlyTheGrammar` | srcs/http_request/HttpRequest_advanceBodyParsing.cpp:112-191 | The chunked decoder finishes with a payload if and only if the buffer is chunks of positive hex size, then a zero size line and CRLF (section 7.1 of RFC 9112 without extensions and trailers), the payload is their data and it is within the limit |
| `Chunked.DecodeResumes` | srcs/http_request/HttpRequest_advanceBodyParsing.cpp:112-191 | Stopping for more input and resuming on the longer buffer is the same as decoding the longer buffer at once |
| `Chunked.DecodeKeepsHistory` | srcs/http_request/HttpRequest_advanceBodyParsing.cpp:112-191 | Wherever the decoder stops, the bytes before the read position are whole chunks whose data is exactly the body so far, then the size line of the kept size: no chunk is appended twice |
| `Chunked.WaitingCanFinish` | srcs/http_request/HttpRequest_advanceBodyParsing.cpp:112-191 | A waiting decoder can still reach kDone, for some further input, if and only if its unread bytes are the start of a size line whose value is 0 or fits the limit, of the kept chunk's data, or of the CRLF behind it |
| `Chunked.WaitsForEverExactly` | srcs/http_request/HttpRequest_advanceBodyParsing.cpp:112-223 | A waiting decoder goes on waiting whatever comes, neither finishing nor refusing, if and only if its unread bytes are a size line that starts with CR |
| `Chunked.BeginningsOfBodies` | srcs/http_request/HttpRequest_advanceBodyParsing.cpp:112-191 | Text received from the start of a body is a prefix of some body of the grammar within the limit if and only if the decoder has finished on it or waits in such a state |
| `Chunked.IterationKeepsHistory` | srcs/http_request/HttpRequest_advanceBodyParsing.cpp:121-190 | One iteration that consumes a chunk, with a fresh or a kept size, extends that history by exactly this chunk |
| `Chunked.ReadSizeExact` | srcs/http_request/HttpRequest_advanceBodyParsing.cpp:195-223 | A complete size line is refused exactly when the number written on it reaches 2^64, otherwise it is read as that number; nothing wraps |
| `Chunked.ReadSizeSound` | srcs/http_request/HttpRequest_advanceBodyParsing.cpp:195-223 | A size is only read from a complete hex size line that says so |
| `Chunked.ShiftAddExact` | srcs/http_request/HttpRequest_advanceBodyParsing.cpp:213-217 | Behind the shift guard the accumulator does not wrap, and the guard fires exactly when the value would not fit |
| `Chunked.NegativeSizesAreRefused` | srcs/http_request/HttpRequest_advanceBodyParsing.cpp:141-174 | A size whose signed cast is negative, the sentinel -1 included, is refused with 413 in the same iteration |
| `Chunked.AppendBoundDoesNotWrap` | srcs/http_request/HttpRequest_advanceBodyParsing.cpp:245-251 | The sums of AppendChunkData cannot wrap for any accepted size and any string length |
| `ChunkRefusals.RefusalsExactly` | srcs/http_request/HttpRequest_advanceBodyParsing.cpp:112-191 | A chunked body is refused with 413 or with 400 and nothing else, and with 413 exactly if behind whole chunks that fit a size line below 2^64 announces more than the limit leaves |
| `HeadTheorems.ParseHeadInvertsPrinting` | srcs/http_request/HttpRequest_advanceHeaderParsing.cpp:20-41 | The head parser succeeds with these fields and this cursor if and only if the text starts with a valid printed head that has them, whose length is the cursor |
| `HeadTheorems.CursorIsEndOfHeader` | srcs/http_request/HttpRequest_advanceHeaderParsing.cpp:21-38 | Whenever the head parser succeeds, its discarded cursor is exactly the position FindEndOfHeader computed, so the erased bytes are the head |
| `HeadTheorems.HeadIsBounded` | srcs/http_request/HttpRequest_consumeHeader.cpp:107-123 | A successful parse stores one entry per header line under distinct lower-cased names; the section is at most 8192 bytes, the target at most 1023 |
| `HeadTheorems.HeadIsLocal` | srcs/http_request/HttpRequest_advanceHeaderParsing.cpp:20-41 | Text behind a blank line changes neither fields, cursor nor thrown status |
| `HeadTheorems.FramingIsDecided` | srcs/http_request/HttpRequest_consumeHeader.cpp:41-67 | content_length_ is -1 exactly with a transfer-encoding header, else within the limit (section 6.3 of RFC 9112) |
| `HeadTheorems.HeadComplete` | srcs/http_request/HttpRequest_advanceHeaderParsing.cpp:20-41 | Every valid printed head is read with what its header map determines, or rejected for it; HeadRefusals says what that is |
| `HeadTheorems.HeadSound` | srcs/http_request/HttpRequest_advanceHeaderParsing.cpp:20-41 | Whatever is read was the printed form of a valid source |
| `HeadTheorems.LinesComplete` | srcs/http_request/HttpRequest_consumeHeader.cpp:107-123 | Printed header lines are read into the map that storing them gives, and total_len counts exactly their bytes |
| `HeadTheorems.LinesSound` | srcs/http_request/HttpRequest_consumeHeader.cpp:107-123 | A header section that was read is a printed list of valid headers with distinct names |
| `HeadTheorems.HeaderMapHasOneEntryPerLine` | srcs/http_request/HttpRequest_consumeHeader.cpp:10-18 | Storing headers with fresh names keeps every line's value under its lower-cased name and adds nothing else |
| `HeadTheorems.UriComplete` | srcs/http_request/HttpRequest_consumeUri.cpp:39-61 | An allowed target of at most 1023 bytes is split at the first '?' into path and query, and the cursor stands behind the space |
| `HeadTheorems.UriSound` | srcs/http_request/HttpRequest_consumeUri.cpp:39-61 | A target that was read is an allowed path, with an allowed query if there was a '?' |
| `HeadTheorems.VersionMeaning` | srcs/http_request/HttpRequest_consumeVersion.cpp:6-24 | The version is read exactly when HTTP/1.0 or HTTP/1.1 and CRLF stand there |
| `HeadTheorems.MethodMeaning` | srcs/http_request/HttpRequest_consumeMethod.cpp:5-35 | The method is recognised exactly when its token with the space stands at the start |
| `Scanner.ScanMeaning` | srcs/http_request/HttpRequest_consumeUri.cpp:15-28 | A scanning loop ends normally at a position exactly when the text before it is allowed and fits and a stop character stands there |
| `Scanner.ReadLineSound` | srcs/lib/parser/StreamParser.cpp:66-103 | A header line that was read is the printed form of its name and value, and all its bytes were counted |
| `Scanner.ReadLineComplete` | srcs/lib/parser/StreamParser.cpp:66-103 | A printed header line within the limit is read back, whatever follows it |
| `FieldTheorems.EveryFieldIsRecovered` | srcs/http_request/HttpRequest_consumeHeader.cpp:107-123 | A printed head whose Host, framing and Connection headers say what a client wishes is read as exactly that: every field, host, port, length and persistence included, is recovered |
| `FieldTheorems.HostIsRecovered` | srcs/http_request/HttpRequest_consumeHeader.cpp:20-38 | A printed host name and decimal port are recovered, the default port without one |
| `FieldTheorems.FramingIsRecovered` | srcs/http_request/HttpRequest_consumeHeader.cpp:41-67 | A decimal length within both limits is recovered, chunked is -1, neither is 0 |
| `FieldTheorems.NumbersAreReadBack` | srcs/lib/utils/string_utils.cpp:15-33 | The number readers invert decimal printing exactly up to their bounds |
| `RequestTheorems.HeadsDecideRequests` | srcs/http_request/HttpRequest_advanceHeaderParsing.cpp:20-41 | Any text that starts with a printed head is decided by its header map alone: with acceptable headers the parser goes on to the body with exactly the host, port, length and persistence they say, and otherwise it throws the status of the first header that fails |
| `HeadRefusals.HeadsAreAcceptedExactly` | srcs/http_request/HttpRequest_consumeHeader.cpp:20-123 | A printed head is accepted if and only if Host is there with a name before ':' and a readable port behind it, Content-Length and Transfer-Encoding are not both there, the length is a number within both bounds, the coding is chunked and Connection is close or keep-alive; otherwise it is refused, in this order, with 400 for a missing name, 500 for the port, 400 for two framings or an unreadable length, 413 for a length above the limit, 501 for another coding, 400 for Connection |
| `HeadRefusals.HostMeaning` | srcs/http_request/HttpRequest_consumeHeader.cpp:20-38 | The host that is read is what the header says, and the two refusals are 400 without a name and 500 with an unreadable port |
| `HeadRefusals.FramingRefusals` | srcs/http_request/HttpRequest_consumeHeader.cpp:41-88 | The framing is refused, in this order, for two framings, an unreadable length, a length above the limit and an unknown coding, with 400, 400, 413 and 501 |
| `HeadRefusals.LongMeaning` | srcs/lib/utils/string_utils.cpp:15-23 | A text is read as a long exactly if it spells that number, spaces and a sign in front, within 64 bits |
| `HeadRefusals.ShortMeaning` | srcs/lib/utils/string_utils.cpp:25-33 | A text is read as an unsigned short exactly if it spells a number of at most 65535 on either side of zero, modulo 2^16 |
| `SyntaxRefusals.ScanExactly` | srcs/http_request/HttpRequest_consumeUri.cpp:15-28 | What a scanning loop returns or throws, for every text, by the number of allowed characters and the character behind them |
| `SyntaxRefusals.TargetRefusals` | srcs/http_request/HttpRequest_consumeUri.cpp:39-61 | A target without a leading slash is refused with 400, one of 1024 bytes or more with 414, a forbidden character with 400, and any other path is read |
| `SyntaxRefusals.QueryRefusals` | srcs/http_request/HttpRequest_consumeUri.cpp:32-61 | The same behind a '?', which counts as a byte of the target |
| `SyntaxRefusals.VersionRefusals` | srcs/http_request/HttpRequest_consumeVersion.cpp:6-24 | Nothing but 400 comes of the version |
| `SyntaxRefusals.MethodsAreRead` | srcs/http_request/HttpRequest_consumeMethod.cpp:5-35 | The method is the one whose name and a space start the head |
| `SyntaxRefusals.UnknownMethodIsRefused` | srcs/http_request/HttpRequest_consumeMethod.cpp:5-35 | A head without one of the four names is refused with 501, whatever else it holds |
| `SyntaxRefusals.LineRefusals` | srcs/lib/parser/StreamParser.cpp:66-103 | What a header line is refused with: 431 as soon as more than 8192 bytes are counted, 400 for a forbidden character, a colon without a space or a missing line end |
| `SyntaxRefusals.RepeatedNamesAreRefused` | srcs/http_request/HttpRequest_consumeHeader.cpp:10-18 | A second line with the same name up to case is refused with 400 |
| `HttpRequests.HttpRequest.constructor` | srcs/HttpRequest.cpp:12-26 | The initial parser state |
| `HttpRequests.HttpRequest.Parse` | srcs/lib/parser/StreamParser.cpp:18-36 | The driver loop ends, and leaves exactly the state or the status of the specification; the invariant holds again |
| `HttpRequests.HttpRequest.AdvanceHeader` | srcs/http_request/HttpRequest_advanceHeaderParsing.cpp:20-41 | Waits for the blank line, then runs the cursor chain and erases the separately computed length, which is the head |
| `HttpRequests.HttpRequest.ConsumeMethod` | srcs/http_request/HttpRequest_consumeMethod.cpp:5-35 | Sets the method whose token stands at the start, else 501 |
| `HttpRequests.HttpRequest.ConsumeUntilStopChar` | srcs/http_request/HttpRequest_consumeUri.cpp:15-28 | The scanning loop with its length bound computes the specified scan |
| `HttpRequests.HttpRequest.ConsumeUri` | srcs/http_request/HttpRequest_consumeUri.cpp:39-61 | Sets path and query as specified, same errors in the same order |
| `HttpRequests.HttpRequest.ConsumeQuery` | srcs/http_request/HttpRequest_consumeUri.cpp:32-37 | Sets the query to the scanned text |
| `HttpRequests.HttpRequest.ConsumeVersion` | srcs/http_request/HttpRequest_consumeVersion.cpp:6-24 | Sets the version as specified or throws 400 |
| `StreamParser.BumpLenOrThrow` | srcs/lib/parser/StreamParser.cpp:57-64 | Adds to the count or throws 431, without underflow |
| `StreamParser.ReadHeaderLine` | srcs/lib/parser/StreamParser.cpp:66-103 | The two scanning loops compute the specified header line, strict or lenient |
| `HttpRequests.HttpRequest.StoreHeader` | srcs/http_request/HttpRequest_consumeHeader.cpp:10-18 | Stores under the lower-cased name, a second time throws 400 |
| `HttpRequests.HttpRequest.ConsumeHeader` | srcs/http_request/HttpRequest_consumeHeader.cpp:107-123 | The header loop and the three checks behind it compute the specified fields and cursor |
| `HttpRequests.HttpRequest.ValidateAndExtractHost` | srcs/http_request/HttpRequest_consumeHeader.cpp:20-38 | Host name and port as specified, 400 without a host name, an unreadable port ends in 500; HeadRefusals.HostMeaning says what is specified |
| `HttpRequests.HttpRequest.ValidateBodyHeaders` | srcs/http_request/HttpRequest_consumeHeader.cpp:41-67 | The framing decision as specified |
| `HttpRequests.HttpRequest.ParseContentLength` | srcs/http_request/HttpRequest_consumeHeader.cpp:69-79 | The length within the limit, else the specified status |
| `HttpRequests.HttpRequest.ParseTransferEncoding` | srcs/http_request/HttpRequest_consumeHeader.cpp:82-88 | Accepts chunked only |
| `HttpRequests.HttpRequest.ParseConnectionDirective` | srcs/http_request/HttpRequest_consumeHeader.cpp:91-105 | keep_alive_ as specified for the version |
| `HttpRequests.HttpRequest.AdvanceBody` | srcs/http_request/HttpRequest_advanceBodyParsing.cpp:52-70 | Chooses the framing and leaves the specified state |
| `HttpRequests.HttpRequest.AdvanceContentLengthBody` | srcs/http_request/HttpRequest_advanceBodyParsing.cpp:73-89 | Takes exactly the announced bytes once they are there |
| `HttpRequests.HttpRequest.AdvanceChunkedBody` | srcs/http_request/HttpRequest_advanceBodyParsing.cpp:93-192 | Leaves exactly what the pure decoder computes |
| `HttpRequests.HttpRequest.DecodeLoop` | srcs/http_request/HttpRequest_advanceBodyParsing.cpp:112-191 | The for(;;) loop ends and refines the decoder; at every loop head the body is the decode of the bytes read |
| `HttpRequests.HttpRequest.ValidateAndSkipCRLF` | includes/HttpRequest.hpp:34-41 | Skips CRLF, waits for it, or throws 400, and moves the position only on success |
| `HttpRequests.HttpRequest.ParseChunkSize` | srcs/http_request/HttpRequest_advanceBodyParsing.cpp:195-223 | The digit loop computes the specified size and position |
| `HttpRequests.HttpRequest.ValidateFinalCRLF` | srcs/http_request/HttpRequest_advanceBodyParsing.cpp:226-240 | Finishes only when the final CRLF ends the buffer |
| `HttpRequests.HttpRequest.AppendChunkData` | srcs/http_request/HttpRequest_advanceBodyParsing.cpp:243-257 | Appends exactly the chunk's data behind the limit test, and skips its CRLF |
| `EventRuns.AllRunsAreSafe` | srcs/Webserv.cpp:62-98 | In every state of every run in which no call of CheckTimeout removes a CgiSocket whose descriptor a process holds that the call does not wait for, whatever the system calls return: sockets_ maps exactly each live socket's descriptor to it, the interest list of epoll has exactly the live sockets, cgi_socket_ and owner_ are live and name each other, every pointer left in the batch is live, nothing that is gone is dereferenced, a connection is dispatched at most once, sent bytes and write_buffer_ are the response, every child that got a CgiSocket is waited for exactly once |
| `EventRuns.LiveExactlyWithoutLeaks` | srcs/Webserv.cpp:62-98 | Along any run, everything epoll_wait may report names the live socket it was registered for, if and only if no call of CheckTimeout removes a CgiSocket whose descriptor a process still holds that the call does not wait for |
| `EventRuns.FreedSocketIsReported` | srcs/Webserv.cpp:128-145 | A run from the start: two clients connect, each gets a CGI program, the first client times out; the next timeout deletes its CgiSocket, whose address epoll_wait may then report, and handling that event is undefined |
| `EventRuns.LeakedEntryIsReported` | srcs/Webserv.cpp:128-145 | The same behind every such call, for every set of late sockets and every CgiSocket of it that such a process holds |
| `EventRuns.StepKeepsInv` | srcs/Webserv.cpp:62-98 | Every step of the loop and of other processes keeps the inductive invariant, and a stale entry appears in the interest list exactly with such a call |
| `EventRuns.RunKeepsInv` | srcs/Webserv.cpp:62-98 | Every run without such a call keeps the inductive invariant and a clean interest list |
| `EventRuns.ReportsAreLiveExactlyWhenClean` | srcs/Webserv.cpp:66-76 | Everything epoll_wait may report names its live socket exactly when the interest list has no entry of a deleted one |
| `EventTheorems.HandleNextKeepsInv` | srcs/Webserv.cpp:73-96 | One pass of the batch loop, with registration, failed registration and removal, is defined, keeps the invariant, and leaves no stale entry |
| `EventRequests.RunIsEnteredExactlyOnCompletion` | srcs/socket/ClientSocket.cpp:87-142 | In every such run, RequestHandler::Run has been entered for a connection if and only if the first pieces that recv returned complete a request, and then exactly once, with what feeding these pieces to the parser gives |
| `EventRequests.RunIsGivenTheReceivedRequest` | srcs/socket/ClientSocket.cpp:87-142 | In terms of bytes: if and only if the bytes of some first pieces are a request of the grammar, and the request given is exactly the one that the bytes received until then are, with its fields, its body and what followed |
| `EventRequests.StepKeepsHeard` | srcs/socket/ClientSocket.cpp:87-142 | Every step of the loop keeps each connection's parser in step with the bytes received |
| `EventAnswers.ClientsAreAnswered` | srcs/socket/ClientSocket.cpp:44-236 | In every such run, every client at every time: nothing is sent and the mask stays EPOLLIN while its request is incomplete; refused bytes are answered with the page for the status they are refused with; what RequestHandler::Run returned is sent, printed, with EPOLLOUT; the response of an asynchronous result is held back with EPOLLIN; a thrown status is answered with its page and EPOLLOUT; the end of the CGI with the response its whole output says, or 500 |
| `EventAnswers.RefusedHeadsAreTold` | srcs/socket/ClientSocket.cpp:60-78 | From header values to the answer: a client whose bytes start with a printed head that is not acceptable, in whatever pieces they came, is sent the status line of the first header that fails, and RequestHandler::Run is never entered for it |
| `EventAnswers.RefusedRequestsAreTold` | srcs/socket/ClientSocket.cpp:60-78 | The same for whatever bytes the parser refuses |
| `EventAnswers.CgiOutputIsSent` | srcs/socket/ClientSocket.cpp:202-223 | A client whose CGI program exited well after printing header lines, an empty line and a body is sent the response with these headers and exactly that body, unless it had been sent something else before |
| `EventTheorems.EndKeepsClient` | srcs/socket/ClientSocket.cpp:202-236 | What the owner is told at the end of the CGI is an answer to all that read has returned |
| `EventTheorems.ResultKeepsOwned` | srcs/socket/ClientSocket.cpp:111-155 | A synchronous result is printed and sent with EPOLLOUT, or with the page for the errno when epoll refuses; an asynchronous one links its CgiSocket |
| `Timeouts.ExpireKeepsInv` | srcs/Webserv.cpp:134-139 | Removing a timed-out socket keeps the invariant |
| `Timeouts.PassIsCleanUnlessItLeaks` | srcs/Webserv.cpp:128-145 | A whole pass over the late sockets, in any order, leaves a stale entry exactly if it removes a CgiSocket, which inherits the empty HandleTimeout, and a process that the pass does not wait for holds its descriptor |
| `Timeouts.ExpireAllPasses` | srcs/Webserv.cpp:128-145 | The pass dereferences live sockets only, ends with the invariant, has waited for exactly the children of the removed CgiSockets, and of their entries keeps exactly those that a remaining process inherited |
| `Kernels.CloseStale` | srcs/CgiExecutor.cpp:193-219 | Closing a descriptor leaves its entry behind, if it still has one, exactly if some process inherited the file, and drops every stale entry that none holds |
| `Kernels.ReapStale` | srcs/socket/CgiSocket.cpp:19-27 | Waiting for a child drops exactly the stale entries that no other process holds |
| `EventTheorems.RemoveKeepsOwned` | srcs/socket/ClientSocket.cpp:38-42 | Deleting a socket the batch no longer mentions clears exactly the back-pointers to it and keeps the ownership invariant |
| `EventTheorems.RemoveKernel` | srcs/Webserv.cpp:93-95 | Deleting a socket closes its file, keeps every other entry of the interest list, and leaves none of its own if it was deregistered |
| `EventTheorems.DeletionIsSafe` | srcs/socket/CgiSocket.cpp:19-27 | Whatever a destructor dereferences is live |
| `EventTheorems.ClientInKeepsOwned` | srcs/socket/ClientSocket.cpp:87-158 | A throw of Parse, an incomplete request, a synchronous and an asynchronous dispatch keep the ownership invariant; no connection is dispatched twice |
| `EventTheorems.ClientOutKeepsOwned` | srcs/socket/ClientSocket.cpp:160-176 | A partial, full or failed send keeps sent bytes and write_buffer_ equal to the response |
| `EventTheorems.ClientEventKeepsOwned` | srcs/socket/ClientSocket.cpp:44-85 | HandleEvent with its exception handlers keeps the ownership invariant |
| `EventTheorems.ServerEventKeepsOwned` | srcs/socket/ServerSocket.cpp:65-91 | Accepting a connection keeps the ownership invariant, the new socket pending |
| `EventTheorems.CgiEventKeepsOwned` | srcs/socket/CgiSocket.cpp:29-66 | End of a CGI's output waits for its child once and answers through its owner if it is still there |
| `EventTheorems.NewCgiKeepsOwned` | srcs/socket/ClientSocket.cpp:110-142 | An asynchronous dispatch links a new CgiSocket with a client that had none |
| `EventTheorems.FullSendCloses` | srcs/socket/ClientSocket.cpp:160-176 | A writable client is closed exactly by a failed or a complete send, and after a complete one the sent bytes are the response |
| `WebservLoop.Webserv.AddListeners` | srcs/Webserv.cpp:38-59 | All listeners are registered and the state is an initial one, or one could not be opened, bound or registered, everything is deleted again and the constructor throws |
| `WebservLoop.Webserv.AddListener` | srcs/Webserv.cpp:42-54 | One listener is opened, entered and registered; if socket, bind, listen or epoll_ctl fails, nothing of it is left |
| `WebservLoop.Webserv.HandleEpollIn` | srcs/socket/ClientSocket.cpp:87-158 | Leaves exactly the state and the exception of the step function, whose answers EventAnswers.ClientsAreAnswered pins |
| `WebservLoop.Webserv.HandleEpollOut` | srcs/socket/ClientSocket.cpp:160-176 | Sends and shortens write_buffer_ as specified |
| `WebservLoop.Webserv.HandleClientEvent` | srcs/socket/ClientSocket.cpp:44-85 | The handler with its catch blocks is the step function |
| `WebservLoop.Webserv.HandleServerEvent` | srcs/socket/ServerSocket.cpp:65-91 | Accepting is the step function |
| `WebservLoop.Webserv.HandleCgiEvent` | srcs/socket/CgiSocket.cpp:29-66 | Reading and reaping is the step function |
| `WebservLoop.Webserv.OnCgiExecutionFinished` | srcs/socket/ClientSocket.cpp:202-223 | The owner gets the response parsed from the output, or the page for 500 whatever is wrong with it, and waits to send if epoll agrees |
| `WebservLoop.Webserv.OnCgiExecutionError` | srcs/socket/ClientSocket.cpp:224-236 | The owner gets a bare 500, and waits to send if epoll agrees |
| `WebservLoop.Webserv.RemoveSocket` | srcs/socket/ClientSocket.cpp:38-42 | Erasing and deleting with both destructors is the removal function, and dereferences live sockets only |
| `WebservLoop.Webserv.RemoveCgiSocket` | srcs/socket/ClientSocket.cpp:238-242 | Clears the back-pointer only if it names this CGI |
| `WebservLoop.Webserv.HandleOne` | srcs/Webserv.cpp:73-96 | The loop body handles one event as the step function does, keeps the invariant, and leaves no stale entry |
| `WebservLoop.Webserv.HandleBatch` | srcs/Webserv.cpp:73-96 | All events that epoll_wait reported of its interest list are handled, with any removals and any steps of other processes in between, and the state is safe |
| `WebservLoop.Webserv.HandleTimeout` | srcs/socket/ClientSocket.cpp:178-200 | The 408 page replaces write_buffer_, sent bytes and write_buffer_ stay that page behind what was sent before, and the client is deregistered |
| `WebservLoop.Webserv.RemoveLate` | srcs/Webserv.cpp:134-139 | Timeout handling and deletion of one socket are the specified step |
| `WebservLoop.Webserv.CheckTimeout` | srcs/Webserv.cpp:128-145 | Removes exactly the timed-out sockets that are not listeners, no other entry changes, and the interest list is clean behind it if and only if no process that it has not waited for holds the descriptor of a CgiSocket it has removed |
| `WebservLoop.Webserv.ClearResources` | srcs/Webserv.cpp:147-155 | Everything is deleted and every child that got a CgiSocket was waited for once |
| `Paths.WalkFailsExactlyOnClimbs` | srcs/FileValidator.cpp:54-63 | Normalisation is refused exactly when some prefix of the segments leads above the start |
| `Paths.NormalFormsAreCanonical` | srcs/FileValidator.cpp:45-77 | A normal form splits back into a stack without empty and dot segments, is determined by it, and normalising it again changes nothing |
| `Paths.SegmentsOfRebuild` | srcs/FileValidator.cpp:68-76 | The rebuilt path splits back into the stack and ends in a slash exactly as asked |
| `Paths.SegmentsOfJoin` | srcs/FileValidator.cpp:24-39 | A slash separates: the segments of a joined path are those of its parts |
| `Paths.SplitPathSegments` | srcs/FileValidator.cpp:24-39 | The cutting loop collects exactly the non-empty pieces between slashes |
| `Paths.NormalizePathBySegments` | srcs/FileValidator.cpp:45-77 | The two loops with the segment stack equal the recursive specification |
| `Paths.ContainsUnsafeChars` | srcs/FileValidator.cpp:12-20 | Finds a character outside the printable range if and only if there is one |
| `Paths.ValidateAndNormalizePath` | srcs/FileValidator.cpp:90-100 | Character test, normalisation and root test in this order, with their statuses |
| `Paths.UnderMeansPrefix` | srcs/FileValidator.cpp:79-87 | The textual root test implies a prefix of segments |
| `Paths.UnderCanonicalRoot` | srcs/FileValidator.cpp:79-87 | On rebuilt paths the textual root test is exactly a prefix test on segments |
| `Paths.AcceptedPathsStayUnderRoot` | srcs/FileValidator.cpp:90-100 | Whatever the root, an accepted path has no dot segments and has the root's segments as a prefix |
| `Paths.ResolveExactly` | srcs/RequestHandler.cpp:94-101 | Below a canonical root the outcome is exactly that of walking the remainder's segments from the root's: 400 above "/", 404 outside the root |
| `Paths.ResolveComposes` | srcs/RequestHandler.cpp:94-101 | A remainder that normalises on its own resolves to the root's segments followed by its normal form's |
| `Paths.IndexIsOneMoreSegment` | srcs/RequestHandler.cpp:105-134 | Appending any index file the configuration admits walks one more segment and tests the root again; a plain name below a canonical root adds exactly that segment and is accepted |
| `RoutingTheorems.LongestIsUnique` | srcs/config_parser/ConfigParser_FindLocationForUri.cpp:39-49 | The search returns a location exactly when it is the unique matching one with the longest trimmed name |
| `RoutingTheorems.NotFoundMeansNoMatch` | srcs/config_parser/ConfigParser_FindLocationForUri.cpp:50-52 | 404 exactly when no location matches |
| `RoutingTheorems.RouteIgnoresOrder` | srcs/config_parser/ConfigParser_FindLocationForUri.cpp:33-65 | The order in which locations were added does not matter |
| `RoutingTheorems.RouteIgnoresTrailingSlashes` | srcs/config_parser/ConfigParser_FindLocationForUri.cpp:9-16 | Any number of extra trailing slashes on the URI changes neither location nor remainder |
| `RoutingTheorems.RouteSplitsUri` | srcs/config_parser/ConfigParser_FindLocationForUri.cpp:53-61 | The remainder starts with a slash, and the segments of name and remainder together are those of the URI |
| `RoutingTheorems.MatchMeansCovered` | srcs/config_parser/ConfigParser_FindLocationForUri.cpp:20-28 | For every rooted URI and every rooted name without "//", a location matches if and only if its segments are a prefix of the URI's, the URI is no shorter than the trimmed name, and that part of the URI has no "//" |
| `RoutingTheorems.DoubleSlashesAreNotAbsorbed` | srcs/config_parser/ConfigParser_FindLocationForUri.cpp:4-8 | The documented example: the segments are a prefix, but the location does not match |
| `RoutingTheorems.TrimDropsSlashes` | srcs/config_parser/ConfigParser_FindLocationForUri.cpp:9-16 | Trimming forgets any number of trailing slashes |
| `ServerConfigs.TrimTrailingSlashExceptRoot` | srcs/config_parser/ConfigParser_FindLocationForUri.cpp:9-16 | The trimming loop equals the recursive specification |
| `ServerConfigs.ServerConfig.AddLocation` | includes/ServerConfig.hpp:83-94 | Added unless a name is equal up to trailing slashes, nothing else changes, and names stay pairwise distinct |
| `ServerConfigs.ServerConfig.FindLocationForUri` | srcs/config_parser/ConfigParser_FindLocationForUri.cpp:33-65 | The loop computes the specified match and remainder |
| `ServerConfigs.ServerConfig.SetOnce` | srcs/ServerConfig.cpp:17-57 | A second setting of the same directive is refused and changes nothing |
| `RequestHandlers.ActionsArePermitted` | srcs/RequestHandler.cpp:22-64 | For every configuration, method and URI: a redirect is answered exactly for a location with one, 405 and 501 only where the method asks for it, and every path read, written, removed or handed to CGI belongs to an allowed method, has no dot segments and has the matched root's segments as a prefix |
| `RequestActions.AnsweredExactly` | srcs/RequestHandler.cpp:22-202 | The exact outcome of every request: 405 if and only if the method is not allowed, or it is a POST whose URI ends in '/' or whose path is a directory; 501 if and only if an admitted method is none of GET, POST and DELETE; otherwise reading, writing, removing or running exactly the path that the URI's segments walk to, for a GET of a directory with the index name behind it, and 403 if and only if there is none |
| `RequestActions.ResolvedPath` | srcs/RequestHandler.cpp:67-103 | A path is resolved exactly if it is the one that the segments say; otherwise 400 if the root is unusable or the segments climb above it, else 404 |
| `RequestActions.AcceptedAgain` | srcs/RequestHandler.cpp:105-134 | Validating a path that was accepted changes nothing, so a plain file is served under exactly the resolved path |
| `RequestHandlers.RequestHandler.Run` | srcs/RequestHandler.cpp:22-64 | Routing, redirect, method test and dispatch in this order, with their statuses |
| `RequestHandlers.RequestHandler.HandleGet` | srcs/RequestHandler.cpp:136-151 | The index file for directories, then reading or CGI |
| `RequestHandlers.RequestHandler.HandlePost` | srcs/RequestHandler.cpp:156-202 | 405 for directories, else writing or CGI |
| `RequestHandlers.ResolvedExactly` | srcs/RequestHandler.cpp:67-103 | From URI to file, for every root: the URI's segments behind those of the location's name are walked behind the root's; the outcome must have a canonical root's segments as a prefix, and must be any other root itself |
| `RequestHandlers.AnyRootExactly` | srcs/RequestHandler.cpp:94-101 | The exact outcome of validation below any root, canonical or not, for every remainder |
| `RequestHandlers.OtherRootsServeThemselves` | srcs/RequestHandler.cpp:94-101 | Below a root that is not canonical nothing is ever accepted but the root itself, whatever the remainder |
| `RequestHandlers.ExactlyCanonicalRootsWork` | srcs/RequestHandler.cpp:94-101 | For every root: a printable remainder that normalises to something below is accepted if and only if the root is canonical, that is absolute, printable, without trailing slash, empty or dot segments |
| `RequestHandlers.DefaultRootAnswersBadRequest` | srcs/location.cpp:3-22 | A location without a root directive keeps "./" and answers 400 to everything |
| `RequestHandlers.RequestHandler.PrepareRoutingContext` | srcs/RequestHandler.cpp:67-71 | Sets match and path as specified, or throws the specified status |
| `RequestHandlers.RequestHandler.ResolveFilesystemPath` | srcs/RequestHandler.cpp:83-103 | 404 without a match, no path for a redirect, else the validated path |
| `RequestHandlers.RequestHandler.AppendIndexFileIfDirectoryOrThrow` | srcs/RequestHandler.cpp:105-134 | The index file is appended for directories, 403 without one, and validated again |
| `CgiPath.SplitMeaning` | srcs/CgiExecutor.cpp:33-68 | A split exists exactly when a non-empty extension has a boundary-valid occurrence; it is at the smallest of the extensions' rightmost valid occurrences, the first extension winning ties |
| `CgiPath.SplitIsExact` | srcs/CgiExecutor.cpp:118-124 | Executable and path info are the path, path info is empty or starts with a slash, and the executable passes the extension test |
| `CgiPath.RunExactlyWhen` | srcs/CgiExecutor.cpp:189-191 | The extension test passes exactly when the path splits, or ends in an extension that is empty or is its whole last segment |
| `CgiRoots.ScriptIsBelowExactly` | srcs/CgiExecutor.cpp:117-124 | The script that is run for an accepted path lies below the location's root if and only if it is no shorter than the root |
| `CgiRoots.PlainRootsKeepScripts` | srcs/CgiExecutor.cpp:117-124 | It always does if no allowed extension ends a segment of the root |
| `CgiRoots.ScriptAboveRoot` | srcs/CgiExecutor.cpp:33-68 | A concrete root inside which an accepted path is split, so that the script lies above the root |
| `CgiPath.CreatePathInfo` | srcs/CgiExecutor.cpp:33-68 | The nested rfind loops compute the specified path info |
| `CgiPath.IsScriptExtensionAllowed` | srcs/CgiExecutor.cpp:70-81 | True exactly when the path ends in one of the extensions |
| `CgiPath.CgiExecutor.constructor` | srcs/CgiExecutor.cpp:117-184 | The script path and the four variables that depend on the split, with the wrap-around of the unsigned difference |
| `CgiTheorems.ReadBackExactly` | srcs/CgiResponseParser.cpp:102-111 | What ToHttpString prints behind the status line is read back by ParseCgiResponse, same headers and same body, whatever the body contains, if and only if every header is printable, no name has a colon, the lines fit into 8192 bytes and there is a content type |
| `CgiTheorems.PrintedIsReadBack` | srcs/CgiResponseParser.cpp:25-46 | The direction from the conditions to the round trip |
| `CgiTheorems.FieldsSound` | srcs/CgiResponseParser.cpp:25-46 | If every printed name was stored, every printed header was readable and the lines fit |
| `CgiTheorems.ListingRebuilds` | srcs/HttpResponse.cpp:151-155 | In any order, storing the listed headers again gives the map back |
| `CgiTheorems.ScannersAgreeExactly` | srcs/lib/parser/StreamParser.cpp:46-55 | For every output whose header lines are read, the erased length is the head that was read if and only if the empty line is a CRLF behind a CRLF, or a bare LF behind a header line and CRLFCRLF occurs nowhere in the output; never when the header loop stopped at a NUL |
| `CgiTheorems.PrintedOutputIsExact` | srcs/CgiResponseParser.cpp:102-111 | Header lines, an empty line and a body as a CGI program writes them, each line ended by CRLF or LF as it likes, are accepted with exactly that body if and only if the last header line and the empty line end in CRLF, or the empty line is a bare LF and CRLFCRLF occurs nowhere in the output |
| `CgiTheorems.BodyIsExact` | srcs/CgiResponseParser.cpp:44-88 | The body handed over is the text behind the empty line exactly when the scanners agree |
| `CgiTheorems.LenientBodyIsCut` | srcs/lib/parser/StreamParser.cpp:46-55 | A concrete output that is answered with its headers and status 200 but without the first line of its body, which is lost with the head |
| `CgiTheorems.FinalHeadersAreWellKept` | srcs/HttpResponse.cpp:126-149 | Adding date and length keeps names lower-cased and free of line breaks |
| `CgiResponses.ParseCgiResponse` | srcs/CgiResponseParser.cpp:102-111 | 502 without a content type, else the parsed response |
| `CgiResponses.CgiResponseParser.Parse` | srcs/lib/parser/StreamParser.cpp:18-36 | From a fresh parser: waits for the head, then finishes with the specified response |
| `CgiResponses.CgiResponseParser.AdvanceHeader` | srcs/CgiResponseParser.cpp:25-46 | The header loop computes the specified response and erases up to FindEndOfHeader |
| `CgiResponses.CgiResponseParser.StoreHeader` | srcs/CgiResponseParser.cpp:48-81 | Status and Location are special, everything else is stored; AddHeader cannot throw here |
| `CgiFields.LinesAreStoredAsTheySay` | srcs/CgiResponseParser.cpp:48-81 | What a line does to the response: Status sets number and reason, the standard phrase without one; Location turns a 200 into 302 Found; every line but Status is stored under its lower-cased name; refused is exactly a Status without a number, with 502 |
| `CgiResponses.CgiResponseParser.AdvanceBody` | srcs/CgiResponseParser.cpp:83-88 | The whole buffer becomes the body |
| `HttpResponses.HttpResponse.AddHeader` | srcs/HttpResponse.cpp:58-66 | Refuses line breaks, stores under the lower-cased name, and keeps the map well kept |
| `HttpResponses.HttpResponse.SetStatus` | srcs/HttpResponse.cpp:43-46 | Sets the status and its standard phrase and nothing else |
| `HttpResponses.HttpResponse.SetStatusAndReason` | srcs/HttpResponse.cpp:48-52 | Sets the status and the given phrase, which may be empty, and nothing else |
| `HttpResponses.HttpResponse.ToHttpString` | srcs/HttpResponse.cpp:122-165 | Status line, the final headers in ascending order of their names, an empty line, the body; PrintedIsReadable and FinalHeadersExactly say what these are |
| `HttpResponses.AnnouncedLengthIsBodyLength` | srcs/HttpResponse.cpp:141-149 | The announced length, read by the server's own number reader, is the number of body bytes |
| `HttpResponses.PrintedIsReadable` | srcs/HttpResponse.cpp:122-165 | The text starts with HTTP/1.1 and a space; up to the next space a number is read that is the status; up to the first CRLF behind it stands the reason; then the header lines, the empty line and the body |
| `HttpResponses.FinalHeadersExactly` | srcs/HttpResponse.cpp:128-149 | The headers that are sent: all that were set, unchanged, a date, and a content length, which is read back as the number of body bytes, unless the framing is set |
| `HttpResponses.HttpResponse.EnsureDefaultErrorContent` | srcs/HttpResponse.cpp:93-97 | An error status without a body gets the default page, everything else is kept |
| `HttpResponses.MakeDefaultErrorPage` | srcs/HttpResponse.cpp:99-120 | The padding loop ends and computes the specified page |
| `HttpResponses.ErrorPageSays` | srcs/socket/ClientSocket.cpp:60-66 | The page for a thrown status starts with the status line and the title of exactly that status, closes the connection, is HTML, and has at least 512 characters |
| `HttpResponses.TimeoutPageSays` | srcs/socket/ClientSocket.cpp:178-184 | The page for a timed-out client starts with the status line of 408 |
| `HeaderOrders.Ascending` | srcs/HttpResponse.cpp:151-156 | The loop over the map: every key once, each up to the next in the order of std::string |
| `Tokenizer.TokensIgnoreLayout` | srcs/config_parser/ConfigParser_utils.cpp:41-58 | The tokens of a text are a given list if and only if the text is a layout of it: white space anywhere, words kept apart |
| `Tokenizer.LexMeaning` | srcs/config_parser/ConfigParser_utils.cpp:41-58 | One call returns the empty token exactly on white space, else exactly the token the text starts with |
| `ConfigTheorems.AcceptsExactlyTheGrammar` | srcs/config_parser/ConfigParser_parseServer.cpp:3-46 | A file is accepted with these servers if and only if it is a layout of server blocks of the grammar whose meaning they are |
| `ConfigTheorems.LocationLoopSound` | srcs/config_parser/ConfigParser_parseLocation.cpp:32-65 | An accepted location block is a printed list of directives with exactly its meaning |
| `ConfigTheorems.LocationLoopComplete` | srcs/config_parser/ConfigParser_parseLocation.cpp:32-65 | Every printed list of location directives with a meaning is accepted with it |
| `ConfigTheorems.ServerLoopSound` | srcs/config_parser/ConfigParser_parseServer.cpp:22-44 | An accepted server block is a printed list of directives with exactly its meaning |
| `ConfigTheorems.ServerLoopComplete` | srcs/config_parser/ConfigParser_parseServer.cpp:22-44 | Every printed list of server directives with a meaning is accepted with it |
| `ConfigTheorems.MethodsLoopComplete` | srcs/config_parser/ConfigParser_parseMethods.cpp:11-27 | A list of method names gives exactly the methods that the words name |
| `ConfigTheorems.MethodWords` | srcs/config_parser/ConfigParser_parseMethods.cpp:14-23 | A word of the list stands for a method exactly if the method is Get, Post or Delete and the word with a space is its token in a request |
| `ConfigValues.ValueIsStored` | includes/ConfigParser.hpp:87-97 | Every value but a root and a body size is stored as it is written, and which values are accepted: on and off for the switches, plain file names for index, absolute printable paths for upload_path |
| `ConfigValues.BodySizeIsStored` | srcs/config_parser/ConfigParser_parseMaxBody.cpp:3-14 | A body size is accepted exactly up to 100000000, with anything behind the number, and stored as written |
| `ConfigValues.RootIsStored` | srcs/config_parser/ConfigParser_parseRoot.cpp:14-53 | An absolute root is stored as written, a relative one as the path of its segments walked behind those of the working directory; which roots are refused |
| `ConfigValues.CgiIsSwitched` | includes/Location.hpp:150-163 | cgi on switches CGI on, cgi off leaves it off, and nothing else is accepted |
| `ConfigValues.GettersReturnWhatIsSet` | includes/Location.hpp:140-148 | Root, index and redirect are what their getters return, and one directive leaves the others alone |
| `ConfigValues.ErrorPageIsStored` | srcs/config_parser/ConfigParser_parseErrorPage.cpp:13-38 | What an error_page line stores: the code, and the page made absolute unless it is a URL or absolute |
| `ConfigValues.DirectivesHaveTheirBlock` | srcs/config_parser/ConfigParser_parseLocation.cpp:35-63 | Each directive stands in its own block only |
| `ConfigValues.LocationNamesExactly` | srcs/config_parser/ConfigParser_parseLocation.cpp:5-10 | A location name is rooted and has neither ".." nor "//" anywhere |
| `ConfigValues.NewLocationsExactly` | includes/ServerConfig.hpp:83-94 | A location is refused exactly if one is there whose name differs from its own in slashes at the end at most |
| `ConfigTheorems.ExtensionsLoopComplete` | srcs/config_parser/ConfigParser_parseCgiAllowedExtensions.cpp:14-18 | The collected extensions are the listed ones, in order |
| `ConfigTheorems.KeywordIsRead` | srcs/config_parser/ConfigParser_utils.cpp:9-36 | Every keyword has its own token type |
| `ConfiguredRouting.AcceptedServersAreWellFormed` | srcs/config_parser/ConfigParser_parseServer.cpp:3-46 | Every server of an accepted file has valid location names, pairwise distinct up to trailing slashes, and non-empty lists wherever a list directive was given |
| `ConfiguredRouting.RoutesToDeepest` | srcs/config_parser/ConfigParser_FindLocationForUri.cpp:33-65 | For every server of an accepted file and every rooted URI: of the locations whose segments lead into the URI without "//" on the way, the unique deepest one is chosen, and 404 means there is none |
| `EndToEnd.OnlyFilesBelowTheRoot` | srcs/RequestHandler.cpp:22-134 | For every accepted configuration text and every request that is complete, in any cutting: what the server redirects to, reads, writes, removes or hands to CGI is what the deepest location that covers the URI permits, every path without dot segments below its root, and 404 is answered if no location covers it |
| `EndToEnd.RequestsAreAnsweredExactly` | srcs/RequestHandler.cpp:22-202 | The exact outcome for every accepted configuration text and every complete request, with the deepest location that covers the URI |
| `EndToEnd.RunsStayBelowTheRoot` | srcs/socket/ClientSocket.cpp:111-115 | The same for the request that any run of the event loop gives to RequestHandler::Run on any connection |
| `EndToEnd.RequestsResolveExactly` | srcs/RequestHandler.cpp:67-103 | For the same configurations and requests, the exact path or status of resolution, with nothing assumed about URI, names or root |
| `EndToEnd.DeliveryKeepsTarget` | srcs/http_request/HttpRequest_consumeUri.cpp:39-61 | However a request is delivered, once its head is read the URI is printable and starts with a slash |
| `ConfiguredRouting.RelativeRootsAreCanonical` | srcs/config_parser/ConfigParser_parseRoot.cpp:14-53 | A relative root is stored canonical, so that files can be reached below it, exactly when it is written without a trailing slash or leads to "/" |
| `ConfigParsers.ConfigParser.Tokenize` | srcs/config_parser/ConfigParser_utils.cpp:41-58 | Takes exactly the next token and strictly advances unless there is none |
| `ConfigParsers.ConfigParser.ConsumeExpectedSemicolon` | srcs/config_parser/ConfigParser_utils.cpp:80-86 | Takes one token and says whether it is the semicolon |
| `ConfigParsers.ConfigParser.Parse` | srcs/config_parser/ConfigParser_parseServer.cpp:3-14 | Ends on every input; the servers depend on the tokens only |
| `ConfigParsers.ConfigParser.ParseServer` | srcs/config_parser/ConfigParser_parseServer.cpp:16-46 | The block loop ends and appends exactly the specified server |
| `ConfigParsers.ConfigParser.ParseServerDirective` | srcs/config_parser/ConfigParser_parseServer.cpp:25-43 | The switch is the specified dispatch |
| `ConfigParsers.ConfigParser.ParseSetting` | includes/ConfigParser.hpp:87-97 | One value, checked and stored at most once, then a semicolon |
| `ConfigParsers.ConfigParser.ParseErrorPage` | srcs/config_parser/ConfigParser_parseErrorPage.cpp:13-38 | Code and page, the page made absolute, then a semicolon |
| `ConfigTheorems.NumberIsReadByAtoi` | srcs/config_parser/ConfigParser_parseErrorPage.cpp:18-21 | A code is read up to the first character that is no digit, so exactly the numbers 400 to 599 are accepted, with anything behind them, as far as numbers within the range of int go |
| `ConfigParsers.ConfigParser.ParseLocation` | srcs/config_parser/ConfigParser_parseLocation.cpp:20-67 | The block loop ends and adds exactly the specified location, or fails on a duplicate |
| `ConfigParsers.ConfigParser.ParseLocationDirective` | srcs/config_parser/ConfigParser_parseLocation.cpp:35-63 | The switch is the specified dispatch |
| `ConfigParsers.ConfigParser.ParseMethods` | srcs/config_parser/ConfigParser_parseMethods.cpp:4-29 | The token loop ends and collects the methods, refusing duplicates of the directive and an empty list |
| `ConfigParsers.ConfigParser.ParseCgiAllowedExtensions` | srcs/config_parser/ConfigParser_parseCgiAllowedExtensions.cpp:3-19 | The collecting loop ends, also at the end of the file |

## Left out

- RequestParser.Parse: after a throw the parser's fields are not specified, because the connection never parses again.
- HttpRequests.HttpRequest.Parse: requires that the buffer stays within the maximal string size; the length_error beyond it is not modelled.
- CgiResponses.CgiResponseParser.Parse: a call in kDone is excluded by its precondition, because OnExtraDataAfterDone does nothing and the original loops for ever.
- HttpResponses.HttpResponse.ToHttpString: the date text is a parameter, and strftime does not fail.
- HttpResponses.HttpResponse.SetStatus: a status outside the range of int, which a CGI can send, is kept as it is; the conversion through the enumeration is not modelled.
- ConfigParsers.ConfigParser.ParseSetting: the value of listen is accepted by an arbitrary predicate, because host and port syntax are one more table, and the working directory is a parameter.
- WebservLoop.Webserv.CheckTimeout: which sockets are late, the dates of the pages and the results of send are parameters; other processes act before and behind a call, not between two of its removals.
- WebservLoop.Webserv.HandleEpollIn: RequestHandler::Run is an arbitrary response or a new CgiSocket, with the fork of a child whose CgiSocket could not be made; its own dispatch and path logic is in RequestHandlers and RequestActions, and the status that an errno of epoll_ctl is mapped to is any status.
- EventRuns.AllRunsAreSafe: send accounting exempts a response that was prepared after an earlier one was partly sent, which happens only when extra input was answered while a CGI ran; a child whose CgiSocket could not be made is never waited for and is not counted.
- EventAnswers.ClientsAreAnswered: a response that was prepared after an earlier one was partly sent is exempt, as above.
- EventRuns.LiveExactlyWithoutLeaks: descriptors that leave a process other than by inheritance, as over a Unix socket, are not modelled.
- CgiPath.CgiExecutor.constructor: the meta-variables that do not depend on the split.
- Sockets, epoll, fork, execve, stat, file contents, getcwd and the clock: only their results enter.
- Stream extraction of numbers is modelled for the C locale: leading spaces, a sign, digits to the end of the text.
- The copy constructor of HttpRequest, which does not copy the limit: one parser object per connection.
- Reading, writing and removing files behind the dispatch of RequestHandler::Run, redirect statuses, the responses made of what was read or written, MIME types, method names, host and port syntax: short tables or file access.
- Logging.
