# LeftHookRoll in Dafny

A model of the web server LeftHookRoll, a single-threaded epoll HTTP/1.0 server, with proofs about the
parts in which data arrives, moves and leaves in arbitrary pieces.

Each part is written twice. The imperative form has the source's own shape: objects with fields that
methods update in place, and the source's loops. It is proved against functions on plain values, one per
operation, and the theorems are lemmas about those functions, over every input, every environment and
every run. What the operating system does (how much `recv`, `send`, `read` and `write` transfer, which
events are ready, what the clock says, which children exit, which address or descriptor is handed out
next) is an argument, so it is never fixed to one behaviour. One handler call is one step.

| files | what they model |
|---|---|
| `ByteStrings`, `CNumbers`, `IntSets` | byte strings and searches, the C number conversions with saturation and wrap-around, sets with a smallest element |
| `ChunkedDecoder`, `ChunkedCoding`, `ChunkedRefusals`, `RequestBody` | the chunked coding of section 7.1 of RFC 9112: decoder, encoder, decoding of the stored body in slices |
| `RequestHead`, `RequestVerdicts`, `RequestFields`, `Request` | request line and headers (sections 5.1 and 4.2 of RFC 1945), their round trip and their refusals; the `Request` object |
| `ByteStore`, `DataStore` | the two-mode store as a value and as an object with a file and a descriptor |
| `ConnectionIntake`, `ConnectionRun`, `Connection`, `UploadCompletion`, `ProcessAnswers` | taking in a request, processing it, the upload from first byte to finished file, and what the client is answered |
| `ResponseModel`, `ResponseWire`, `SpooledWire`, `UploadWrites`, `Response` | sending in slices from memory, from a file and from a spooled store, writing an upload |
| `EventLoop`, `EventLoopPointers`, `EventLoopInvariant`, `EventLoopBatch`, `EventLoopFairness`, `EventLoopTiming`, `EventLoopDeadline`, `EventLoopEffects`, `EventLoopSteps`, `ConnectionOutcomes`, `ServerManager` | the event loop: its functions, soundness of references, the full invariant, fairness, deadlines, effects of single steps, agreement with what connections do, and the `ServerManager` object |
| `ConfigLexer`, `ConfigSyntax`, `ConfigPrinter`, `ConfigRoundTrip`, `ConfigRefusals`, `ConfigEffects`, `ConfigParser` | the configuration language, its printer, what is refused, what the directives of a block add up to, and the `ConfigParser` object |
| `CgiProcesses`, `CgiManager` | accounting of CGI children |

A `string` stands for a byte string. Connections live under an address that may be handed out again as
soon as the object is deleted, while stale copies of it are still queued.

## Where the code differs from the obvious ideal

The model follows the code, and the theorems say exactly when the ideal holds.

- The chunk decoder adds up the bytes it needs in a `size_t`. Of all sizes that wrap, only 2^64 - 2
  (for instance the chunk line `-2`) is accepted, and then decoding depends on how the body was sliced;
  every other wrapped size ends in 400, an exception or more waiting (`ChunkedDecoder.AcceptedWrapIsTrap`,
  `ChunkedRefusals.WrappedVerdict`, `ChunkedDecoder.SliceInvarianceIsExact`,
  `ChunkedDecoder.TrapExample`).
- A trailer section behind the last chunk is refused (`ChunkedRefusals.TrailerIsBroken`), and a header line
  without a digit ends the body (`ChunkedRefusals.NoDigitsEndsBody`).
- 431 counts body bytes that arrive together with the headers (`ConnectionIntake.HeaderTooLargeIff`,
  `ConnectionIntake.SameStreamTwoAnswers`).
- The end of a chunked body is looked for in the newest piece only. A marker that is cut is not seen and
  one inside the data is seen too early: a body completes with its last piece exactly if that piece and no
  other shows the marker (`ConnectionIntake.ChunkedBodyReceived`, `ConnectionIntake.CutMarkerNotSeen`,
  `ConnectionIntake.EarlyMarkerExample`). Exactly then a chunked upload arrives; otherwise it is never
  answered (`UploadCompletion.UploadIff`, `UploadCompletion.UploadLost`). A marker that occurs once, at the
  end, in one piece is enough (`ConnectionIntake.UncutMarkerSeenLast`).
- In file mode one descriptor offset serves appending writes and reads. A read is right exactly if the
  offset is at the cursor (`ByteStore.ReadIsRightIff`, `ByteStore.UnreadAppend`); the code's callers rewind
  before reading.
- A response that was spooled to disk is rewound on every slice and sends its first block over and over.
  It arrives exactly if its body consists of whole blocks equal to the first; otherwise wrong bytes go out,
  or too many of them (`SpooledWire.SpooledFaithfulIff`, `SpooledWire.PageFaithfulIff`,
  `SpooledWire.OneByteTooMany`).
- A hang-up on a CGI pipe finishes the response without draining the pipe (`EventLoopEffects.CgiEndMeans`).
- Two events break the tables of the event loop, and no others do: a hang-up on a pipe that is still open
  but was unregistered because reading from it threw, and input for a connection that is PROCESSING while
  its stored body cannot be rewound (`EventLoopInvariant.HandleEventIff`,
  `EventLoopEffects.ThrowingPipeIsOrphaned`, `EventLoopEffects.RepeatedInputBreaks`). epoll reports
  neither, because the pipe is not watched and the mask is empty (`EventLoopBatch.EpollIsSafe`).
- An idle timeout of a connection waiting for its CGI leaves its pipe registered
  (`EventLoopTiming.TimeOutExactIff`). The CGI deadline is sure to pre-empt it exactly if the loop
  never takes longer than 25 seconds from one CGI sweep to the next (`EventLoopDeadline.DeadlineIff`,
  `EventLoopDeadline.LateRun`).
- `atoi` truncates, so a `listen` value of 4294967376 means port 80 (`ConfigRoundTrip.PortIff`,
  `ConfigRoundTrip.WrappedPort`). Body sizes saturate at 2^63 - 1 without a suffix and wrap at 2^64 with one
  (`ConfigRoundTrip.PlainSizeIff`, `ConfigRoundTrip.SuffixedSizeIff`, `ConfigRoundTrip.WrappedSize`).
- A configuration value may be any token, `;` and `}` included; only `methods` ends at the first `;`
  (`ConfigRoundTrip.DelimiterAsValue`).
- `isDone` and the shutdown loop take an interrupted `waitpid` for the end of a child
  (`CgiProcesses.StepKeepsIff`, `CgiProcesses.InterruptedPollLosesChild`,
  `CgiProcesses.CleanUpReapsAllIff`, `CgiProcesses.InterruptedShutdownLosesChild`). A stale pid never
  disturbs the accounts, although a timeout may then kill the child that owns the number now
  (`CgiProcesses.KillsOtherIff`, `CgiProcesses.StalePidKillsOther`).


## Model

| member | source | states |
|---|---|---|
| `ChunkedDecoder.SliceInvariance` | src/Request.cpp:302-357 | Decoding a body in any slices gives the outcome (need more, done, 400, 413, exception) and the decoded bytes of decoding it in one go, from any decoder state, for every limit, unless a trap is reached (a chunk announcing 2^64 - 2 bytes with bytes buffered behind its header) |
| `ChunkedDecoder.SliceInvarianceIsExact` | src/Request.cpp:321-343 | Every cut in two, under every limit, decodes like the whole if and only if the body reaches no such trap |
| `ChunkedDecoder.AcceptedWrapIsTrap` | src/Request.cpp:321-337 | When the size_t sum of the bytes needed wraps, the chunk is accepted exactly if the announced size is 2^64 - 2; it then takes all buffered bytes and erases only the header |
| `ChunkedDecoder.TrapExample` | src/Request.cpp:321-337 | The trap at its input: the body "-2 CRLF x" decodes to "x" in one piece and to nothing when it is cut behind the chunk line |
| `ChunkedDecoder.DrainSplit` | src/Request.cpp:311-344 | Draining a prefix and then the rest with the kept buffer equals draining everything, buffer included; a verdict reached on the prefix stands |
| `ChunkedDecoder.SettledStays` | src/Request.cpp:304-305 | Slices after the verdict change nothing |
| `ChunkedDecoder.FinishedWithinLimit` | src/Request.cpp:338-342 | 413 comes exactly if the decoded bytes exceed a nonzero limit; a finished body is within it |
| `ChunkedCoding.EncodedNeverTraps` | src/Request.cpp:311-344 | An encoded body whose sizes are representable never meets the wrap-around |
| `ChunkedCoding.DecodeEncoded` | src/Request.cpp:302-357 | decode(encode(chunks)) is the concatenation of the chunks, any bytes, hex spellings and extensions; it is refused with 413 exactly if that is over the limit |
| `ChunkedCoding.PrefixPends` | src/Request.cpp:311-344 | An encoding within the limit that is cut short anywhere keeps the decoder asking for more |
| `ChunkedCoding.RoundTrip` | src/Request.cpp:302-357 | The same however the encoding is sliced |
| `ChunkedRefusals.BrokenIsRefused` | src/Request.cpp:311-345 | On bytes: well-formed chunks, then a header line with as many data bytes as it announces and two bytes that are not CRLF behind them, then anything, decode to 400, or to 413 if the chunks before exceed a nonzero limit |
| `ChunkedRefusals.BrokenIsRefusedInSlices` | src/Request.cpp:302-357 | The same however the body is sliced |
| `ChunkedRefusals.TrailerIsBroken` | src/Request.cpp:327-331 | A last chunk that a trailer line follows is such a chunk |
| `ChunkedRefusals.SizeRead` | src/Request.cpp:315-321 | The size in a header line: white space, a sign and 0x before the digits and anything behind them up to the semicolon make no difference, a minus negates modulo 2^64, and too many digits give 2^64 - 1 |
| `ChunkedRefusals.NoDigitsEndsBody` | src/Request.cpp:315-336 | A header line that does not start with a digit counts as size 0 and ends the body if an empty line follows |
| `ChunkedRefusals.WrappedVerdict` | src/Request.cpp:321-331 | Every size that wraps the size_t sum, given in digits: the sum 0 or 1 is an exception, 2^64 - 2 is accepted, 2^64 - 1 waits for a single byte and then gives 400, and all others give 400 |
| `RequestBody.SliceStep` | src/Request.cpp:302-357 | One processBodySlice call on the stored body either reads on, keeping the books of the decoder, or settles the request exactly as the whole body would be settled |
| `RequestBody.SlicesDecideLikeWhole` | src/Request.cpp:302-357 | Calls enough to reach the end of the stored body give the outcome, bytes, rewound store and content-length header of a one-shot decode; pending only if the body is incomplete |
| `RequestBody.SettledRequestStays` | src/Request.cpp:304-305 | Further calls on a settled request change nothing |
| `RequestBody.EncodedBodyDecodes` | src/Request.cpp:302-357 | An encoded body of n bytes is decoded to its payload, or refused with 413, within ceil(n / 8192) calls |
| `RequestBody.SliceKeepsValid` | src/Request.cpp:302-357 | A call keeps both stores well formed whatever the bytes are |
| `CNumbers.StrToUl16OfDigits` | src/Request.cpp:321 | Hexadecimal digits that fit denote their number; strtoul with its spaces, sign, 0x prefix, saturation and negation is otherwise modelled as is |
| `CNumbers.StrToUl16Reads` | src/Request.cpp:321 | strtoul in base 16 on any white space, sign, 0x, digits and rest, saturation and negation included |
| `CNumbers.StrToLl10OfDigits` | src/Request.cpp:244-245 | Decimal digits that fit are read whole |
| `CNumbers.StrToLl10Reads` | src/Request.cpp:244-245 | strtoll on any white space, sign, digits and rest: the value held within a long, and where the digits end |
| `CNumbers.StrToLl10Nothing` | src/Request.cpp:244-245 | Without a digit nothing is converted |
| `Requests.Request.ParseRequestLine` | src/Request.cpp:107-155 | Sets method, URL, query, protocol, state and status as the parsing function does, error branches included |
| `Requests.Request.ExtractQueryFromUrl` | src/Request.cpp:157-166 | Splits the URL at the first question mark |
| `Requests.Request.ParseHeaders` | src/Request.cpp:168-203 | The line loop yields the head and the body offset of the parsing function; the offset lies in the buffer |
| `Requests.Request.TypeOfReq` | src/Request.cpp:227-265 | Body type, content length and the 400 and 413 refusals |
| `Requests.Request.ParseHeaderLine` | src/Request.cpp:287-300 | Adds the trimmed, lower-cased field or ignores the line |
| `Requests.Request.ProcessBodySlice` | src/Request.cpp:302-357 | New state and result are those of the slice function, the exception of the decoder included |
| `Requests.Request.DecodeSlice` | src/Request.cpp:307-344 | Reads the next 8192 bytes through the store and decodes what they complete |
| `Requests.Request.TakeDecodedBody` | src/Request.cpp:346-354 | The decoded bytes become the rewound body and its size the content-length header |
| `Requests.DecodeInto` | src/Request.cpp:311-344 | The inner loop terminates and leaves buffer, bytes and outcome of the decoder; the store holds the decoded bytes as if appended at once |
| `RequestHead.PrintedRequestParses` | src/Request.cpp:107-203 | A printed method, URL, query, protocol and header list parses back to the same values, the offset being just past the blank line, whatever bytes follow |
| `RequestHead.BodyBytesIgnored` | src/Request.cpp:168-202 | Bytes after the first blank line never affect head or offset |
| `RequestHead.ParseLinesOfLines` | src/Request.cpp:175-197 | The index loop over the header section is a fold over its lines |
| `RequestHead.BlankLineFound` | src/Request.cpp:170-172 | The first blank line is found right behind the printed lines, not inside them |
| `RequestHead.RequestLineParses` | src/Request.cpp:107-166 | A printed request line parses to its parts |
| `RequestHead.FieldLinesParse` | src/Request.cpp:287-300 | Printed fields parse to the map of lower-cased names, the last value winning |
| `RequestVerdicts.ThreeWords` | src/Request.cpp:107-166 | Of any three-word request line: an unknown method gives 501, before a wrong protocol gives 505, before a target without leading slash gives 400; otherwise the words are taken and the target split at its first question mark |
| `RequestVerdicts.TwoWords` | src/Request.cpp:124-139 | Two words are a complete HTTP/0.9 request, with the same complaints |
| `RequestVerdicts.OneWord` | src/Request.cpp:109-115 | A line without a space is refused with 400 |
| `RequestVerdicts.DeclaredLength` | src/Request.cpp:227-265 | Chunked wins over any length; no length means no body; a decimal length over a nonzero limit gives 413 and is the body length otherwise |
| `RequestVerdicts.BadLength` | src/Request.cpp:243-250 | A length with anything behind its digits, or a negative one, gives 400 |
| `RequestFields.FieldsRead` | src/Request.cpp:287-300 | In a parsed request, names that differ only in case are one field under the name in small letters and the last value wins; a name that no field spells is absent; no name has a capital |
| `RequestFields.ChunkedRead` | src/Request.cpp:227-235 | The body is chunked exactly if the last transfer-encoding field, its name in any mixture of cases, has "chunked" in any mixture of cases somewhere in its value |
| `RequestFields.LengthRead` | src/Request.cpp:236-257 | Otherwise the last content-length field, its name in any mixture of cases, is the length of the body, 0 meaning none; above a nonzero limit it gives 413 |
| `RequestFields.OddLengthRead` | src/Request.cpp:243-250 | A length with anything but a NUL behind its digits, or a negative one, gives 400; digits that do not fit a long stand for the largest one |
| `RequestFields.NoBodyRead` | src/Request.cpp:258-264 | Without either there is no body |
| `RequestFields.RefusedLineStands` | src/Request.cpp:186-202 | A refused request line decides the request, whatever header lines and bytes follow |
| `RequestFields.PaddedFieldLine` | src/Request.cpp:287-300 | White space of any kind around name and value is dropped |
| `RequestFields.IgnoredLine` | src/Request.cpp:287-300 | A line without a colon, or with nothing but white space before it, changes nothing |
| `RequestFields.LeadingLineEnd` | src/Request.cpp:175-197 | A line end in front of the request line is skipped |
| `RequestFields.BlankRequest` | src/Request.cpp:168-203 | A blank line alone is a request without method, complete at once |
| `ByteStore.StoreRefinesTape` | src/DataStore.cpp:119-272 | Any sequence of append, read, reset, spill, copy, assign and clear observes the bytes and sizes of a plain byte sequence with a cursor, if in file mode a reset separates every write, spill or copy from the next read |
| `ByteStore.SpillIsInvisible` | src/DataStore.cpp:119-140 | Stores with different limits observe the same under that discipline: whether the spill happens cannot be seen |
| `ByteStore.ReadIsRightIff` | src/DataStore.cpp:197-240 | A file-mode read is right for all contents if and only if the shared descriptor offset is at the cursor or there is nothing to read |
| `ByteStore.UnreadAppend` | src/DataStore.cpp:119-226 | The stale offset at its input: a byte appended in file mode and read without a reset is not found, where a byte sequence with a cursor gives it |
| `ByteStore.UnreadSpill` | src/DataStore.cpp:254-272 | Nor is a byte that was moved to the file without a reset |
| `ByteStore.UnreadCopy` | src/DataStore.cpp:69-94 | Nor one that was copied with its file |
| `DataStores.WriteAll` | src/DataStore.cpp:14-27 | All bytes are written through short writes, or the call throws and what was added to the file is a prefix of them |
| `DataStores.CopyContents` | src/DataStore.cpp:32-62 | The bytes of the source file are appended to the target, through short reads and writes |
| `DataStores.ReadFully` | src/DataStore.cpp:211-222 | Short reads are made up for; the bytes are the next ones at the offset |
| `DataStores.DataStore.constructor` | src/DataStore.cpp:65-67 | An empty RAM store with the 1 MiB limit |
| `DataStores.DataStore.Append` | src/DataStore.cpp:119-147 | Appends, spilling when the limit is exceeded; a failed call loses nothing stored before and adds at most a prefix of the data to the file |
| `DataStores.DataStore.SwitchToFileMode` | src/DataStore.cpp:254-272 | Moves the bytes to a temporary file, or leaves the store unchanged |
| `DataStores.DataStore.Read` | src/DataStore.cpp:197-226 | Reads from the buffer or at the descriptor offset and advances the cursor by the count |
| `DataStores.DataStore.ResetReadPosition` | src/DataStore.cpp:231-240 | Cursor and descriptor offset are both 0 afterwards |
| `DataStores.DataStore.Clear` | src/DataStore.cpp:152-165 | An empty RAM store, whatever state it was in |
| `DataStores.DataStore.CopyOf` | src/DataStore.cpp:69-94 | The copy holds the same bytes in a file of its own, cursor at the start, offset at the end |
| `DataStores.DataStore.Assign` | src/DataStore.cpp:96-105 | Takes over a copy of the operand, or is unchanged if copying throws |
| `ConnectionIntake.FragmentationInvariance` | src/Connection.cpp:119-208 | Every cutting of a stream into recv pieces that does not trip 431 gives the head and status of the one-shot parse. With an announced length the connection leaves READING, for PROCESSING, exactly if that many bytes came in, the pieces that brought them are stored, and if there are no more bytes it leaves with the very last piece. Of a chunked body the pieces up to the first that shows the end marker are stored, it leaves READING exactly if there is one, and it does so with the very last piece and not before if and only if that piece and no other shows the marker |
| `ConnectionIntake.HeaderTooLargeIff` | src/Connection.cpp:121-126 | 431 comes exactly if more than 8192 bytes, body bytes included, have arrived when the header section completes, or at all if it never does; any stream, any cutting |
| `ConnectionIntake.HeadUnfinished` | src/Connection.cpp:119-132 | A stream whose header section never ends is buffered whole, or answered with 431 once more than 8192 bytes came |
| `ConnectionIntake.HeadPhase` | src/Connection.cpp:119-163 | From any point inside the header section, for every cutting: 431 or the parsed head followed by the body pieces, with the same pieces after which the connection is still reading |
| `ConnectionIntake.LengthBodyReceived` | src/Connection.cpp:165-170 | A body of the announced length is stored whole and completed by its last piece, not before |
| `ConnectionIntake.LengthPieces` | src/Connection.cpp:165-170 | For any pieces: those up to the one that brings in the announced length are stored, that one in full, the connection moves on exactly if there is one, and nothing behind it is read |
| `ConnectionIntake.ChunkedBodyReceived` | src/Connection.cpp:172-178 | A chunked body leaves READING with its last piece and not before if and only if that piece and no other shows the end marker; it is stored whole then |
| `ConnectionIntake.ChunkedPieces` | src/Connection.cpp:172-178 | For any pieces: those up to the first that shows the marker are stored, the connection moves on exactly if one does, and nothing behind it is read |
| `ConnectionIntake.CutMarkerNotSeen` | src/Request.cpp:359-362 | The cut marker at its input: the same five bytes complete the body in one piece and leave the connection reading in two |
| `ConnectionIntake.EarlyMarkerExample` | src/Request.cpp:359-362 | The early marker at its input: a chunk that holds the marker, cut behind its data, completes the body and the rest of the encoding is lost |
| `ConnectionIntake.SameStreamTwoAnswers` | src/Connection.cpp:121-126 | One stream, cut in two ways: 431 for the one and not for the other |
| `ConnectionIntake.UncutMarkerSeenLast` | src/Request.cpp:359-362 | If the marker ends the body, occurs nowhere else and is not cut, the newest-piece test succeeds exactly on the last piece |
| `ConnectionRun.ChunkedUploadEndToEnd` | src/Connection.cpp:119-266 | For every fragmentation in which the last piece alone shows the end marker, every decode slicing, spill and short write, the uploaded file is a prefix of the concatenated chunks, and status 201 means it is all of them |
| `ConnectionRun.ProcessAllOnCourse` | src/Connection.cpp:210-266 | Any number of process() calls keeps an upload decoding, being written or answered, the file never straying from the payload |
| `UploadCompletion.ChunkedUploadCompletes` | src/Connection.cpp:210-266 | If the file opens and every write takes something (all it is offered, once the payload is too large for RAM), the upload ends with 201 and the whole payload within ceil(n / 8192) + payload + 1 process() calls |
| `UploadCompletion.UploadIff` | src/Connection.cpp:119-266 | From the first received byte to the file, when nothing outside fails: the upload ends with 201 and the whole payload if and only if the last piece of the body, and no other, shows the end marker |
| `UploadCompletion.UploadLost` | src/Connection.cpp:119-266 | Otherwise it is never answered, whatever is tried: the connection goes on reading, or polls for ever what was stored before an early marker |
| `UploadCompletion.NeverAnswered` | src/Connection.cpp:217-223 | A stored body that is incomplete is polled for ever |
| `UploadCompletion.SentUploadArrives` | src/Connection.cpp:119-266 | From client to file: any well-formed request announcing chunks, printed, with any chunked body, encoded, in any pieces of which only the last shows the end marker, ends with 201 and the concatenated chunks in the file |
| `UploadCompletion.SentUploadIff` | src/Connection.cpp:119-266 | And only in such pieces |
| `UploadCompletion.UncutArrives` | src/Request.cpp:359-362 | For that it is enough that the marker occurs once in the encoding and is not cut |
| `UploadCompletion.PrintedIsUpload` | src/Connection.cpp:119-208 | A printed chunked request is a stream of the upload theorems however it is delivered |
| `UploadCompletion.UploadRefused` | src/Connection.cpp:217-265 | A stored body that cannot be decoded is answered with 400, 413 or 500, as one-shot decoding would say, within ceil(n / 8192) process() calls, and nothing is written |
| `UploadCompletion.ReceivedUploadRefused` | src/Connection.cpp:119-266 | From the received pieces on: any bytes behind the head that complete with their last piece, reach no trap and do not decode are answered with the status one-shot decoding calls for, and nothing is written |
| `UploadCompletion.ProcessSucceeds` | src/Connection.cpp:210-266 | Each such call strictly lowers the number of calls left, or the request is answered |
| `ProcessAnswers.ImmediateAnswered` | src/Connection.cpp:233-256 | process() on a request that is answered at once, with a configuration, status 200 and a body that needs no decoding: WRITING, with that status, header and page to send and nothing sent yet |
| `ProcessAnswers.ShownArrives` | src/Response.cpp:409-513 | A response that is ready arrives, header and page, whole if no call fails and SIGPIPE is not noticed, and as a prefix in any case |
| `ProcessAnswers.ImmediateArrives` | src/Connection.cpp:233-275 | Then every run of enough slices without failure or SIGPIPE puts exactly header and page on the wire |
| `ProcessAnswers.FirstAnswerArrives` | src/Connection.cpp:233-275 | For the first answer of a connection that covers every page of at most 1 MiB |
| `ProcessAnswers.CgiWaitedFor` | src/Connection.cpp:235-244 | A started CGI is waited for, nothing else changing |
| `ProcessAnswers.RefusalAnswered` | src/Connection.cpp:225-250 | A refused request shows the error page of its status, or carries the bare status without a configuration; a fine request without configuration gets 500 |
| `ProcessAnswers.ReadRefusalShown` | src/Connection.cpp:119-150 | So does a request that is refused while it is read |
| `ProcessAnswers.ErrorArrives` | src/Connection.cpp:284-298 | The error page arrives whole |
| `ProcessAnswers.NothingToShow` | src/Connection.cpp:284-298 | Without a configuration nothing is sent and the first slice is the last |
| `ProcessAnswers.BrokenUploadAnswered` | src/Connection.cpp:119-266 | From the received bytes: chunks of which one lacks its closing CRLF, or a last chunk with a trailer, however they arrive, show the 400 page within ceil(n / 8192) process() calls once the end marker is seen behind them, or 413 if the limit is exceeded before, and nothing is written |
| `ProcessAnswers.RefusalShown` | src/Connection.cpp:217-265 | Any stored body that cannot be decoded shows the page of its refusal within that many calls |
| `ProcessAnswers.PostVerdict` | src/Response.cpp:648-711 | One write call of an upload by the bytes left, offered and taken: an exception after SIGPIPE, the 500 page if nothing is taken or a spooled block is cut short, the 201 page with the last byte, else another call |
| `ProcessAnswers.UploadGoesOn` | src/Connection.cpp:233-266 | process() on an upload in progress makes one such call; SIGPIPE becomes a 502 page |
| `ProcessAnswers.UploadStarts` | src/Response.cpp:608-646 | A new upload starts with an empty file and the body at its start, or shows the 500 page if the file cannot be opened |
| `Connections.Connection.constructor` | src/Connection.cpp:31-49 | A fresh connection in READING |
| `Connections.Connection.HandleRead` | src/Connection.cpp:180-208 | State, request and answer after one recv, and the activity timer; if a temporary file fails the connection is still READING, or WRITING with the error status it was to answer |
| `Connections.Connection.ReadHeaders` | src/Connection.cpp:119-126 | The piece joins the header buffer, which is then parsed |
| `Connections.Connection.ParseBuffer` | src/Connection.cpp:122-132 | 431 for an overlong buffer, else the parsed head is acted on |
| `Connections.Connection.UseHead` | src/Connection.cpp:129-149 | Refusal, more headers to come, no body, or body bytes to keep |
| `Connections.Connection.StoreLeftover` | src/Connection.cpp:137-162 | Body bytes that came with the headers are stored and may complete the body |
| `Connections.Connection.ReadBody` | src/Connection.cpp:165-170 | Stores the piece; done when the announced length is reached |
| `Connections.Connection.ReadChunked` | src/Connection.cpp:172-178 | Stores the piece; done when it shows the end marker |
| `Connections.Connection.Process` | src/Connection.cpp:210-266 | One process() call: decode a slice, refuse, build or go on writing; the timer is refreshed; if a temporary file fails the answer is 500 |
| `Connections.Connection.DecodeBody` | src/Connection.cpp:219-223 | The slice call inside process(): request and result are those of the slice function, the exception of the decoder included |
| `Connections.Connection.DecodeAndBuild` | src/Connection.cpp:217-261 | The try block of process(): an exception of the decoder becomes the 500 answer of the model |
| `Connections.Connection.Build` | src/Connection.cpp:225-250 | Status check, missing configuration, and what buildResponse comes to |
| `Connections.Connection.Post` | src/Connection.cpp:233-255 | An upload goes on, ends in WRITING, or fails with 502 on SIGPIPE |
| `Connections.Connection.HandleWrite` | src/Connection.cpp:268-275 | One slice is sent; FINISHED exactly if it reports completion |
| `Connections.Connection.TriggerError` | src/Connection.cpp:284-298 | An error page, or the bare status without configuration; state WRITING |
| `ResponseWire.SliceIsCorrect` | src/Response.cpp:409-513 | One sendSlice with arbitrary send and read counts keeps the wire a prefix of header and body; unfinished means strictly more is out, finished without failure means all is out; RAM bodies and served files |
| `ResponseWire.WireIsPrefix` | src/Response.cpp:409-513 | Over any run the wire is such a prefix, and without failures completion is reported exactly when everything is out |
| `ResponseWire.GoodRunCompletes` | src/Response.cpp:409-513 | A run of as many slices as bytes are left cannot stay unfinished |
| `ResponseWire.BuiltResponseArrives` | src/Response.cpp:409-513 | From a response just built, over any run: a prefix of header and body arrives, completion without failures means exactly that all of it is out, and a run of as many slices as bytes does complete |
| `ResponseWire.QuietNeverThrows` | src/Response.cpp:409-537 | A slice throws only if SIGPIPE is noticed around a call made in it |
| `ResponseWire.NoticedThrows` | src/Response.cpp:418-513 | And then it does: noticed before the call nothing goes out, after it what the call took |
| `ResponseWire.QuietRunCompletes` | src/Response.cpp:409-513 | Without failures and SIGPIPE, as many slices as bytes are left end in completion with all of them out; memory and served files |
| `ResponseWire.BuiltResponseCompletes` | src/Response.cpp:409-513 | So a response that was just built arrives whole |
| `ResponseWire.SliceBound` | src/Response.cpp:418-513 | One slice sends at most 16384 bytes of the header and 16384 of the body and buffers no more than that |
| `SpooledWire.SpooledSlice` | src/Response.cpp:442-537 | One sendSlice of a spooled response, with arbitrary counts: the wire is the header and then the first 16384-byte block over and over, growing with every unfinished slice, and the same block is resumed |
| `SpooledWire.PageStartsRun` | src/Response.cpp:364-407 | A page that was built starts such a run, with header and page as its message: from memory if the page fits there, and from a spooled store otherwise |
| `SpooledWire.DonePageStartsRun` | src/Response.cpp:698-710 | So does the answer to a completed upload |
| `SpooledWire.SpooledFaithfulIff` | src/Response.cpp:442-537 | In every run of sendSlice from a spooled response just built the wire stays a prefix of header and body if and only if the body repeats its first block and consists of whole blocks |
| `SpooledWire.PageFaithfulIff` | src/Response.cpp:364-537 | In every run from a page that was built, the client receives a prefix of header and page if and only if the page fits in memory, or repeats its first block and consists of whole blocks |
| `SpooledWire.EqualBlocksArrive` | src/Response.cpp:442-537 | Such a body arrives like any other: a prefix always, and completion without failures exactly when all of it is out |
| `SpooledWire.EqualBlocksComplete` | src/Response.cpp:442-537 | Without failures and SIGPIPE it arrives whole in as many slices as it has bytes |
| `SpooledWire.Overrun` | src/Response.cpp:520-537 | Any spooled body that is not made of whole blocks is overrun by some run: more bytes go out than header and body hold |
| `SpooledWire.OneByteTooMany` | src/Response.cpp:520-537 | At its input: 1 MiB + 1 equal bytes repeat their first block and are overrun all the same |
| `Responses.Response.SendSlice` | src/Response.cpp:409-416 | Dispatches on the response state; wire, state and result are those of the slice function; if the spooled store fails nothing but the rest of the header has gone out |
| `Responses.Response.SendHeader` | src/Response.cpp:418-440 | Header bytes, then on to the body if there is one |
| `Responses.Response.SendBodyStatic` | src/Response.cpp:442-448 | Served file, or the rewound store |
| `Responses.Response.SendBodyFile` | src/Response.cpp:450-490 | Refills the stream buffer from the file, sends from it, closes at the end or on failure |
| `Responses.Response.SendBodyDataStore` | src/Response.cpp:492-537 | RAM store by offset, spooled store through the stream buffer |
| `Responses.Response.BuildErrorPage` | src/Response.cpp:364-407 | A rebuilt response with nothing sent and no file open |
| `UploadWrites.PostIsCorrect` | src/Response.cpp:648-711 | One write call keeps the file a prefix of the request body and growing; 201 exactly if it is complete |
| `UploadWrites.UploadIsPrefix` | src/Response.cpp:648-711 | The same over any run of calls with short and failing writes |
| `UploadWrites.StartedUpload` | src/Response.cpp:608-646 | Starting an upload, whatever mode the body is in, meets the premise of the write loop |
| `UploadWrites.AcceptedUploadCompletes` | src/Response.cpp:648-711 | If the writes go through, the upload ends with 201 and the whole body after at most unwritten + 1 calls |
| `Responses.Response.HandlePost` | src/Response.cpp:630-645 | Opens the file empty, rewinds a spooled body and makes the first write call |
| `Responses.Response.ContinuePostWrite` | src/Response.cpp:648-711 | One call of the write loop in either mode |
| `Responses.Response.WriteFromRam` | src/Response.cpp:655-676 | Resumes at the write position with what write() took |
| `Responses.Response.WriteFromFile` | src/Response.cpp:677-696 | Reads a block through the cursor; a short write is a failure |
| `Responses.Response.FinishPostWrite` | src/Response.cpp:698-710 | 201 page once everything is written |
| `EventLoopPointers.NoDanglingReference` | src/ServerManager.cpp:143-604 | For any events whatsoever, any clock and any reuse of freed addresses, no iteration uses a deleted connection, waiting entries are live and queued, registered pipes belong to live connections, pipe and start-time maps have equal keys, and the table of masks equals the interest set of the kernel |
| `EventLoopPointers.StartPointers` | src/ServerManager.cpp:143-145 | That holds when run() is entered |
| `EventLoopInvariant.StartInv` | src/ServerManager.cpp:143-145 | So does the full invariant |
| `EventLoopInvariant.DropUnknownIff` | src/ServerManager.cpp:172-176 | A hang-up for a descriptor the loop does not watch keeps the invariant exactly if it is not a pipe that was unregistered but is still owned |
| `EventLoopInvariant.HandleEventGood` | src/ServerManager.cpp:162-187 | Handling any event that is not fatal keeps the invariant, stale, repeated or made up |
| `EventLoopInvariant.HandleEventIff` | src/ServerManager.cpp:162-187 | For every event whatsoever the invariant survives if and only if the event is neither a hang-up on an orphan pipe nor input for a PROCESSING client whose stored body cannot be rewound |
| `EventLoopInvariant.HandleConnectionGood` | src/ServerManager.cpp:192-245 | A client event keeps the invariant unless that rewind fails: the interest mask set is the one the final state prescribes |
| `EventLoopInvariant.HandleConnectionIff` | src/ServerManager.cpp:192-245 | And only then |
| `EventLoopInvariant.DropGood` | src/ServerManager.cpp:374-392 | Dropping a connection removes every trace of it and leaves the rest intact |
| `EventLoopInvariant.PollGood` | src/ServerManager.cpp:247-266 | The choice between MOD and ADD is always the right one for a client |
| `EventLoopBatch.BatchKeepsInv` | src/ServerManager.cpp:162-187 | A whole batch keeps the invariant if no event is fatal when its turn comes |
| `EventLoopBatch.BatchIff` | src/ServerManager.cpp:162-187 | For every list of events, descriptors repeated, closed or handed out again included: the invariant holds before and after every event if and only if no event is fatal when its turn comes |
| `EventLoopBatch.ReportedIsSafe` | src/ServerManager.cpp:153-165 | A list as epoll_wait reports it (each descriptor once, watched, input only if asked for) holds no event that is fatal when its turn comes |
| `EventLoopBatch.PassKeepsInv` | src/ServerManager.cpp:405-447 | So does a scheduler pass |
| `EventLoopBatch.SweepsKeepInv` | src/ServerManager.cpp:538-604 | So do both timeout sweeps |
| `EventLoopBatch.RunKeepsInv` | src/ServerManager.cpp:143-190 | A run without fatal events ends in the invariant, whatever the event lists are |
| `EventLoopBatch.RunIff` | src/ServerManager.cpp:143-190 | Over arbitrary event lists: the invariant holds after every pass, sweep and event of a run if and only if no event of the run is fatal |
| `EventLoopBatch.EpollIsSafe` | src/ServerManager.cpp:143-190 | If every list is one that epoll_wait can report in the state it is called in, the run has no fatal event and the invariant holds throughout; epoll_ctl never fails |
| `EventLoopBatch.InvMeans` | src/ServerManager.cpp:143-245 | A live connection is not FINISHED, is PROCESSING iff it is in the processing set, is queued then, has the mask of its state, and has its pipe registered while it waits for a CGI; the own table equals the kernel interest set |
| `EventLoopBatch.StatesMoveForward` | src/ServerManager.cpp:192-245 | No pass, sweep or event of any kind moves a surviving connection backwards in READING < PROCESSING < WAITING_FOR_CGI < WRITING < FINISHED |
| `EventLoopFairness.BoundedWaiting` | src/ServerManager.cpp:405-447 | The entry at index k has its turn within k / 64 + 1 passes, whatever is queued, accepted or dropped meanwhile: in a state of the run that has this very entry at the front, it is called exactly if it is still waiting |
| `EventLoopFairness.BoundedService` | src/ServerManager.cpp:405-447 | In a run without fatal events it is called then exactly if it is a live connection in PROCESSING |
| `EventLoopFairness.TurnIsReached` | src/ServerManager.cpp:410-437 | A turn is a state the pass goes through: the entry that was at index k is at its front, it is called exactly if it is waiting there, and the pass is the rest of the pass from that state |
| `EventLoopFairness.TurnMeans` | src/ServerManager.cpp:412-421 | In that state the turn is a process() call exactly if the entry is a live connection in PROCESSING |
| `EventLoopFairness.PassUsesBudget` | src/ServerManager.cpp:407-410 | A pass stops short of 64 calls only with an empty queue |
| `EventLoopFairness.CallsMade` | src/ServerManager.cpp:407-437 | A pass makes at most 64 calls |
| `EventLoopFairness.PassShiftsQueue` | src/ServerManager.cpp:410-446 | What a pass does not reach moves up by the number of entries taken off, at least the budget left |
| `EventLoopTiming.CgiDeadlineFirst` | src/ServerManager.cpp:471-604 | In every run without fatal events, if no iteration takes longer than d seconds and 10 + 2d <= 60, the idle sweep never hits a connection waiting for its CGI, and at every boundary a pipe is registered exactly while its owner waits |
| `EventLoopTiming.DeadlineFromStart` | src/ServerManager.cpp:143-190 | The same from the start of the server |
| `EventLoopDeadline.DeadlineIff` | src/ServerManager.cpp:143-604 | In all runs of the server from its start, with events that epoll can report and at most d seconds from one CGI sweep to the next, the idle sweep spares every waiting connection and the pipe table stays exact, if and only if 10 + 2d <= 60 |
| `EventLoopDeadline.PacedDeadlineIff` | src/ServerManager.cpp:143-604 | The same over all runs without fatal events |
| `EventLoopDeadline.LateRun` | src/ServerManager.cpp:538-604 | The failing input: five iterations, at most 26 seconds apart, after which the idle sweep hits a connection whose CGI is not yet found overdue |
| `EventLoopTiming.WaitingIsNotIdle` | src/Connection.cpp:279-282 | An idle connection is not waiting for a CGI: the arithmetic of the two deadlines |
| `EventLoopTiming.TimeOutExactIff` | src/ServerManager.cpp:593-603 | Timing out a connection leaves a registered pipe without waiting owner exactly if it waited for its CGI |
| `EventLoopTiming.KillAllOnTime` | src/ServerManager.cpp:553-575 | The CGI sweep unregisters every listed pipe and leaves the others alone |
| `EventLoopEffects.AcceptMeans` | src/ServerManager.cpp:341-347 | An accepted client is live, in the table, in READING and polled for input; a descriptor or address in use changes nothing |
| `EventLoopEffects.DropMeans` | src/ServerManager.cpp:374-392 | A dropped client is gone from object store, table, set, interest and open descriptors, its pipe from maps and descriptors, and nobody else changes |
| `EventLoopEffects.CompleteRequestMeans` | src/ServerManager.cpp:198-234 | A completed request leaves its connection in PROCESSING, at the end of the queue and with an empty mask |
| `EventLoopEffects.FinishedMeans` | src/ServerManager.cpp:241-243 | A finished response or a peer that closes ends the connection |
| `EventLoopEffects.ServeMeans` | src/ServerManager.cpp:419-479 | A process() call requeues the connection, or leaves it in WRITING with both events, or waiting for its CGI with an empty mask and its pipe registered with its start time |
| `EventLoopEffects.CgiEndMeans` | src/ServerManager.cpp:491-536 | A hang-up, the end of output or an exception leaves the client in WRITING and the pipe unregistered, still open only after an exception; anything else changes nothing |
| `EventLoopEffects.ThrowingPipeIsOrphaned` | src/ServerManager.cpp:507-531 | A pipe whose reading threw is left an orphan, and a hang-up for it in the same batch breaks the invariant |
| `EventLoopEffects.RepeatedInputBreaks` | src/ServerManager.cpp:198-224 | From the start of the server, a batch that accepts a client, completes its request and brings input for it again while the body cannot be rewound breaks the invariant |
| `EventLoopEffects.TimedOutMeans` | src/ServerManager.cpp:593-603 | A timed-out client is answered: WRITING, not queued for processing, polled for both events |
| `EventLoopSteps.BatchGoesOn` | src/ServerManager.cpp:162-187 | A batch handles its events one after the other, none left out |
| `EventLoopSteps.RunGoesOn` | src/ServerManager.cpp:143-190 | The loop goes round and round: pass, idle sweep, CGI sweep, events |
| `EventLoopSteps.ReadingClient` | src/ServerManager.cpp:192-245 | An input event of a reading client, for every result of recv: its next state, timer, mask, place in the queue, or its end; a refusal may be answered in the same event, an exception not |
| `EventLoopSteps.WritingClient` | src/ServerManager.cpp:226-245 | A writing client: every slice refreshes the timer, the end of the response ends the connection, an exception does not |
| `EventLoopSteps.BusyClient` | src/ServerManager.cpp:192-245 | A client that is processed or waits for its CGI is left alone |
| `EventLoopSteps.IdleReader` | src/ServerManager.cpp:192-245 | So is a reading client that is only writable |
| `EventLoopSteps.ClientHangsUp` | src/ServerManager.cpp:172-176 | A client that hangs up is dropped, whatever it was doing |
| `EventLoopSteps.IgnoredEvents` | src/ServerManager.cpp:162-187 | A hang-up of a listening socket and events of unknown descriptors change nothing |
| `EventLoopSteps.PipeIsHandled` | src/ServerManager.cpp:165-171 | The pipe of a CGI is looked at before everything else |
| `EventLoopSteps.ListenerAccepts` | src/ServerManager.cpp:318-354 | One event of a listening socket accepts every waiting client, each in READING, polled for input, its timer started |
| `EventLoopSteps.IdleIff` | src/Connection.cpp:279-282 | A connection is idle exactly after 60 seconds |
| `EventLoopSteps.OverdueIff` | src/ServerManager.cpp:546-551 | A CGI is overdue exactly 10 seconds after its pipe was registered |
| `EventLoopSteps.IdleSweepMeans` | src/ServerManager.cpp:578-604 | The idle sweep runs at most every 5 seconds, makes the listed connections write and leaves the others and all timers alone |
| `EventLoopSteps.KillMeans` | src/ServerManager.cpp:553-575 | A killed CGI: its connection writes, its pipe is closed and off all tables, and nobody else notices |
| `ConnectionOutcomes.ReadIsCovered` | src/Connection.cpp:180-208 | The state the event loop sees after handleRead is the state of the connection that received |
| `ConnectionOutcomes.ProcessIsCovered` | src/Connection.cpp:210-266 | The same for process() |
| `ConnectionOutcomes.WriteFinishesIff` | src/Connection.cpp:268-275 | As long as no call fails, handleWrite finishes the connection exactly with the slice after which header and body are out whole; only SIGPIPE noticed in that slice can keep it open |
| `ServerManagers.ServerManager.constructor` | src/ServerManager.cpp:25-48 | Nothing but the listening sockets, polled for input |
| `ServerManagers.ServerManager.AddPollFd` | src/ServerManager.cpp:247-266 | Updates table and interest set, or fails as epoll_ctl does |
| `ServerManagers.ServerManager.EnqueueProcessing` | src/ServerManager.cpp:394-398 | Joins set and queue unless already in the set |
| `ServerManagers.ServerManager.DequeueProcessing` | src/ServerManager.cpp:400-403 | Leaves the set; the queue entry stays |
| `ServerManagers.ServerManager.RegisterCgiPipe` | src/ServerManager.cpp:471-479 | Pipe map, start time and interest set |
| `ServerManagers.ServerManager.UnregisterCgiPipe` | src/ServerManager.cpp:481-489 | Off all tables |
| `ServerManagers.ServerManager.DropConnection` | src/ServerManager.cpp:374-392 | Pipe, set, object, table entry and descriptor go, in that order, on live objects only |
| `ServerManagers.ServerManager.HandleConnection` | src/ServerManager.cpp:192-245 | Read, enqueue, write, then mask or drop by the final state |
| `ServerManagers.ServerManager.AcceptNewConnections` | src/ServerManager.cpp:318-354 | Every accepted socket gets a connection and is polled for input |
| `ServerManagers.ServerManager.HandleCgiPipeEvent` | src/ServerManager.cpp:491-536 | Hang-up finishes without draining, an exception keeps the CGI manager, more output changes nothing |
| `ServerManagers.ServerManager.HandleEvents` | src/ServerManager.cpp:162-187 | The batch loop, dispatching each event as run() does |
| `ServerManagers.ServerManager.ProcessConnection` | src/ServerManager.cpp:419-436 | The call of process() on a live connection |
| `ServerManagers.ServerManager.FinalizeProcessed` | src/ServerManager.cpp:449-469 | Mask, pipe registration or drop by the state reached |
| `ServerManagers.ServerManager.RunRoundRobin` | src/ServerManager.cpp:405-447 | The pass with its budget of 64 terminates and yields the state of the recursive pass; no entry served is dangling |
| `ServerManagers.ServerManager.SweepTimeouts` | src/ServerManager.cpp:578-604 | At most every 5 seconds; times out exactly the idle connections in table order |
| `ServerManagers.ServerManager.IdleConnections` | src/ServerManager.cpp:586-592 | Lists exactly the connections idle for 60 seconds, ascending |
| `ServerManagers.ServerManager.SweepCgiTimeouts` | src/ServerManager.cpp:538-576 | Kills exactly the CGIs overdue by 10 seconds in table order |
| `ServerManagers.ServerManager.OverduePipes` | src/ServerManager.cpp:546-551 | Lists exactly the overdue pipes, ascending |
| `ServerManagers.ServerManager.KillCgi` | src/ServerManager.cpp:553-575 | Unregisters, releases the CGI and goes on to write |
| `ServerManagers.ServerManager.Run` | src/ServerManager.cpp:143-190 | The loop over any rounds equals the run of the model; it keeps pointers sound always, the invariant throughout exactly if no event is fatal, and the CGI deadline if the rounds are in time as well |
| `ServerManagers.RoundsArePaced` | src/ServerManager.cpp:586-592 | The sweeps list what the deadline theorem asks them to list |
| `ConfigLexer.TokenizeIff` | src/ConfigParser.cpp:56-95 | A text has these tokens exactly if it is a layout of them: white space and comments between, words never run together, only the last comment unterminated |
| `ConfigLexer.LayoutTokenizes` | src/ConfigParser.cpp:56-95 | Any such layout tokenizes back to its tokens |
| `ConfigLexer.TextIsLayout` | src/ConfigParser.cpp:56-95 | Every text is a layout of its tokens |
| `ConfigLexer.TokensAreClean` | src/ConfigParser.cpp:76-93 | Every token is a single delimiter or a word without one |
| `ConfigPrinter.PrintedParses` | src/ConfigParser.cpp:39-52 | Printed server blocks parse to what their directives mean, or fail for the reason they are refused, any tokens as values |
| `ConfigPrinter.ParsedWasPrinted` | src/ConfigParser.cpp:26-181 | Whatever parses is a printed list of well-shaped directives |
| `ConfigPrinter.ParseIff` | src/ConfigParser.cpp:26-281 | The accepted token lists are exactly the printed ones whose directives are not refused, with that meaning |
| `ConfigPrinter.NamesPrinted` | src/ConfigParser.cpp:224-233 | The methods loop reads names up to the first semicolon and accumulates them |
| `ConfigRefusals.WordBytes` | src/ConfigParser.cpp:56-95 | Which bytes separate words |
| `ConfigRefusals.TokensApart` | src/ConfigParser.cpp:56-95 | A delimiter is a token of its own even between words, and what follows a number sign is none |
| `ConfigRefusals.LocationRefusedIff` | src/ConfigParser.cpp:217-281 | A location directive is refused exactly for an autoindex other than on and off, a return code that is no number, or an unknown method, and that value is named |
| `ConfigRefusals.ServerRefusedIff` | src/ConfigParser.cpp:184-215 | A server directive is refused exactly for a bad port or host, a size that is no number with at most a suffix, or an error code that is not three digits, and that value is named |
| `ConfigRefusals.RefusalReported` | src/ConfigParser.cpp:26-181 | Behind any well-formed blocks and directives and before anything at all, a refused directive ends the parse with its complaint |
| `ConfigRefusals.BlockMistakeReported` | src/ConfigParser.cpp:124-151 | So does any other mistake in a server block |
| `ConfigRefusals.ServerMistakes` | src/ConfigParser.cpp:109-151 | Unknown directives, missing semicolons and braces, and an early end in a server block |
| `ConfigRefusals.LocationMistakes` | src/ConfigParser.cpp:109-181 | The same in a location block, and a methods directive without methods |
| `ConfigRefusals.FileMistakes` | src/ConfigParser.cpp:26-53 | No server at all, something else than a server between blocks, a missing brace |
| `ConfigEffects.LastMeans` | src/ConfigParser.cpp:124-181 | The last directive of a kind is the one with none of its kind behind it |
| `ConfigEffects.LocationFields` | src/ConfigParser.cpp:153-181 | Root, index, upload store, listing and redirection of a location are those of the last directive of each kind, whatever stands between, and no other directive touches them |
| `ConfigEffects.LocationVerbs` | src/ConfigParser.cpp:224-233 | The methods of a location are those that some directive names |
| `ConfigEffects.LocationInterpreters` | src/ConfigParser.cpp:275-281 | The interpreter of each extension is the last one given for it |
| `ConfigEffects.ServerFields` | src/ConfigParser.cpp:124-151 | Address, name and size limit of a server are those of the last directive of each kind |
| `ConfigEffects.ServerPages` | src/ConfigParser.cpp:205-215 | The page of each status code is the last one given for it |
| `ConfigEffects.ServerLocations` | src/ConfigParser.cpp:142-145 | Locations stand in the order of their directives, each as its own block leaves it |
| `ConfigRoundTrip.DelimiterAsValue` | src/ConfigParser.cpp:153-181 | A delimiter as a value at its input: "root ; ;" sets the root to a semicolon |
| `ConfigRoundTrip.RoundTrip` | src/ConfigParser.cpp:26-281 | Printing any nonempty list of expressible configurations, in any layout, and parsing it gives it back, nested locations, page and CGI maps and methods included |
| `ConfigRoundTrip.ExpressibleIff` | src/ConfigParser.cpp:26-281 | The configurations some file parses to are exactly the nonempty lists of expressible ones |
| `ConfigRoundTrip.SizeIff` | src/ConfigParser.cpp:337-365 | The sizes that can be configured are exactly those up to 2^63 - 1 and the multiples of 1024 below 2^64 |
| `ConfigRoundTrip.PlainSizeIff` | src/ConfigParser.cpp:337-365 | Digits without a suffix are read as the size they spell if and only if it is at most 2^63 - 1 |
| `ConfigRoundTrip.SuffixedSizeIff` | src/ConfigParser.cpp:337-365 | Digits with a suffix are read as the size they spell if and only if it is below 2^64 |
| `ConfigRoundTrip.WrappedSize` | src/ConfigParser.cpp:345-364 | Both at their inputs: 17179869184g is 0, which means no limit, and 2^63 is read as 2^63 - 1 |
| `ConfigRoundTrip.SuffixesScale` | src/ConfigParser.cpp:345-359 | k is 1024, m is 1024 k, g is 1024 m, in either case |
| `ConfigRoundTrip.PortIff` | src/ConfigParser.cpp:324-333 | A port is accepted exactly if it fits a long and is in 1..65535 modulo 2^32 |
| `ConfigRoundTrip.WrappedPort` | src/ConfigParser.cpp:324-333 | The truncation at its input: 4294967376 and 80 are the same port |
| `ConfigRoundTrip.AddressMeaning` | src/ConfigParser.cpp:283-335 | A printed port, or a resolvable host with port, is read back |
| `ConfigParsers.ConfigParser.Scan` | src/ConfigParser.cpp:56-95 | The scanning loop pushes the tokens of the text |
| `ConfigParsers.ConfigParser.SkipComment` | src/ConfigParser.cpp:69-74 | Stops at the newline, which it leaves, or at the end |
| `ConfigParsers.ConfigParser.SkipWord` | src/ConfigParser.cpp:83-92 | Stops at the first byte that is no word byte |
| `ConfigParsers.ConfigParser.Consume` | src/ConfigParser.cpp:109-114 | The next token, or the end-of-file error |
| `ConfigParsers.ConfigParser.Expect` | src/ConfigParser.cpp:116-121 | The given token, or an error naming both |
| `ConfigParsers.ConfigParser.ParseServerBlock` | src/ConfigParser.cpp:124-151 | Directives up to the closing brace, or the first error |
| `ConfigParsers.ConfigParser.ParseLocationBlock` | src/ConfigParser.cpp:153-181 | The same for a location |
| `ConfigParsers.ConfigParser.ParseListen` | src/ConfigParser.cpp:184-189 | Sets the address, or throws |
| `ConfigParsers.ConfigParser.ParseMaxBodySize` | src/ConfigParser.cpp:198-203 | Sets the size, or throws |
| `ConfigParsers.ConfigParser.ParseErrorPage` | src/ConfigParser.cpp:205-215 | Adds the page of a three-digit code, or throws |
| `ConfigParsers.ConfigParser.ParseMethods` | src/ConfigParser.cpp:224-233 | At least one known method, accumulated |
| `ConfigParsers.ConfigParser.ParseAutoIndex` | src/ConfigParser.cpp:235-246 | on, off or an error |
| `ConfigParsers.ConfigParser.ParseReturn` | src/ConfigParser.cpp:262-273 | Code of digits and target |
| `ConfigParsers.ConfigParser.ParseCgiInterpreter` | src/ConfigParser.cpp:275-281 | Adds interpreter under its extension |
| `ConfigParsers.ConfigParser.ParseFile` | src/ConfigParser.cpp:26-53 | The servers of the file, or the first error in reading order |
| `CgiProcesses.StepKeepsIff` | src/CGIManager.cpp:133-188 | Every step (exit, spawn, poll, timeout, drop) keeps the active set equal to the unreaped children and within 64, exactly if it does not take an interrupted waitpid for the end of a child |
| `CgiProcesses.NotDoneIff` | src/CGIManager.cpp:174-188 | isDone answers false if and only if the child of the manager is running and the call is not interrupted, and then changes nothing |
| `CgiProcesses.ExitedIsDone` | src/CGIManager.cpp:174-188 | Once the child has exited, a call that is not interrupted answers true and reaps it, every later call answers true, and nobody else is affected |
| `CgiProcesses.InterruptedPollLosesChild` | src/CGIManager.cpp:174-188 | The lost child at its input: spawn, then an interrupted poll, and shutting down leaves it unreaped |
| `CgiProcesses.KillsOtherIff` | src/Response.cpp:910-925 | Timing out one manager, its wait uninterrupted, ends the running child of another if and only if its pid is stale and now the number of that child |
| `CgiProcesses.StalePidKillsOther` | src/Response.cpp:910-925 | That at its input: four steps from the start, and the accounts still hold |
| `CgiProcesses.AlwaysAccounted` | src/CGIManager.cpp:133-362 | So it is in every interleaving, stale pids included |
| `CgiProcesses.SpawnRefusedIff` | src/CGIManager.cpp:291-311 | A spawn is refused exactly if 64 children are running after reaping |
| `CgiProcesses.SpawnAnswers` | src/CGIManager.cpp:133-172 | execute(): the limit before the pipe before the fork, and only a started child is registered, in set, kernel and manager |
| `CgiProcesses.CleanUpReapsAllIff` | src/CGIManager.cpp:318-362 | After cleanupAllProcesses no child is unreaped exactly if none of its waits for an active pid was interrupted |
| `CgiProcesses.GraceLength` | src/CGIManager.cpp:326-345 | The grace period goes on while there are children, for less than 5 seconds |
| `CgiProcesses.InterruptedShutdownLosesChild` | src/CGIManager.cpp:347-361 | The lost child at its input: one child, a grace period that is over at once, and an interrupted wait |
| `CgiProcesses.NoChildLost` | src/CGIManager.cpp:318-362 | From start to shutdown no child is lost in any interleaving |
| `CgiProcesses.TimeOutKeepsIff` | src/Response.cpp:910-925 | The timeout path keeps the accounts unless both of its waits are interrupted |
| `CgiProcesses.TimedOutIsGone` | src/Response.cpp:910-925 | A manager that is timed out is gone, its child killed, reaped and off the set unless the wait was interrupted, and no other child is touched |
| `CgiManagers.CgiManagerTable.ReapFinishedActivePids` | src/CGIManager.cpp:291-305 | The loop keeps exactly the running and the interrupted ones |
| `CgiManagers.CgiManagerTable.IsSpawnLimitReached` | src/CGIManager.cpp:307-311 | Reaps first, then compares with 64 |
| `CgiManagers.CgiManagerTable.Execute` | src/CGIManager.cpp:133-172 | Limit, pipe and fork failures, or a registered child |
| `CgiManagers.CgiManagerTable.IsDone` | src/CGIManager.cpp:174-188 | Anything but a running child is unregistered |
| `CgiManagers.CgiManagerTable.CgiTimeout` | src/Response.cpp:910-925 | Kill, blocking wait, isDone and deletion |
| `CgiManagers.CgiManagerTable.PollAll` | src/CGIManager.cpp:333-341 | One round of the grace period |
| `CgiManagers.CgiManagerTable.AwaitRest` | src/CGIManager.cpp:347-361 | The rest is killed and waited for |
| `CgiManagers.CgiManagerTable.CleanupAllProcesses` | src/CGIManager.cpp:318-362 | Terminates, clears the set, and leaves no child exactly if undisturbed |

## Left out

- Socket creation, `bind`, `listen`, signals, logging and the child side of `fork`: foreign calls of which only the results matter here.
- FatalException and allocation failure: they end the server.
- Routing, `GET`, `DELETE`, redirects and auto-index: what `buildResponse` comes to for them is an argument of the model (an immediate page or a started CGI); they would add easy members.
- Splitting and parsing CGI output, and completeness of the collected output: the code drops what is left in the pipe on a hang-up.
- Header texts, dates, reason phrases, content types, error page contents and cookies: arguments or absent; easy members.
- `_totalBytesRead`, `_chunkSize`, `_ramParsePos`: written but never read by the modelled code.
- Response and Connection copying, `_readAndPrint` and the ServerManager copy: not used by the running server.
- DataStore files: opening can fail and reads and writes may be short or fail, but a file is not changed from outside and its name is not modelled.
- DataStores.DataStore.Append: after a failed write in file mode the file may hold a prefix of the new bytes that the recorded size does not count; later operations on such a store are not modelled.
- Connections.Connection.HandleRead: when a temporary file fails the stored body and the request are not described further; the exception is left to the event loop, which answers 500.
- Responses.Response.SendSlice: when reopening or reading the spooled store fails, the state of that store is not described further.
- UploadCompletion.NeverAnswered: that each such call refreshes the activity timer, so that the idle sweep spares the connection, is stated of one call only (Connections.Connection.Process).
- ConnectionRun.ChunkedUploadEndToEnd: asks for the end marker in the last piece alone and for no 431; UploadCompletion.UploadIff and ConnectionIntake.HeaderTooLargeIff say that the code needs both.
- EventLoopTiming.CgiDeadlineFirst: a clock that is set back is left out; within the bound d that is asked for time only moves on.
- Connections as objects inside ServerManager: the loop keeps them in a map from address to what it knows of them, so that addresses can be reused; ConnectionOutcomes ties that view to the Connection object's functions.
- Exits of children during a reaping loop: an exit counts as happening before the loop if the loop has not come to that child yet, and after it otherwise.
- The 100 ms sleeps of the shutdown loop: a premise on the clock, that ten rounds take a second.
- Name resolution in `listen`: a function from host names to addresses; that it may answer differently at another time is not modelled.
- Reading the configuration file: the text is an argument. The sign of plain `char` in `isspace` for bytes above 127: they count as word bytes.
- Messages of configuration errors: the kind of error and the token it names are kept.
