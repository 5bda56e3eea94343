# gxh: what its hard parts promise

gxh is a C++ coroutine server framework. This project models four of its parts in Dafny and proves
what they promise, over all inputs, all runs and all interleavings.

**The HTTP parser.** The C parser of `gxh/http/http-parser` is modelled twice: as a byte-at-a-time
machine that emits items (`http_machine.dfy`) and as a class whose `Execute` runs over a buffer with
marks and fast inner loops (`http_executor.dfy`). The second is proved to refine the first. About
the machine: its runs compose, so cutting a stream into buffers changes nothing
(`http_callbacks.dfy`); no internal assert fires (`http_invariants.dfy`); notifications and body
bytes keep to the protocol of a message (`http_protocol.dfy`); lengths and chunked bodies are exact
against an independent decoder (`http_framing.dfy`) and that decoder against the standard
(`http_strict_chunks.dfy`, with a whole request in `http_chunked_request.dfy`), so what is delivered
between headers and completion is the body (`http_messages.dfy`); URLs are taken apart without losing
a byte (`http_url.dfy`). A printed request (`http_request.dfy`) comes back whole when it is parsed
(`http_round_trip.dfy`), and so does a form (`forms.dfy`). The strict build is modelled, sections
2.2, 3.6.1 and 4.4 of RFC 2616 and sections 2.1 and 2.3 of RFC 3986 are the standards behind it.

**ByteArray.** A class over a linked chain of blocks with a cursor node refines a flat byte sequence
with a position (`byte_array.dfy`, places in `bytes_types.dfy`). On it sit the integer, varint,
zigzag, float and string codecs (`byte_codecs.dfy` says what is written, `byte_streams.dfy` writes and reads
it through the chain) and the scatter/gather buffers that the socket stream uses.

**Scheduler, IOManager, timers and hook.** Event registrations (`io_events.dfy`, `io_moves.dfy`, and
the class in `io_manager.dfy`), the ordered timer set (`timers.dfy`, and the class in
`timer_manager.dfy`), the task queue (`scheduler.dfy`), and one system of atomic steps that puts them
together with threads and hooked calls (`protocol.dfy`, proved about in `protocol_safety.dfy` and,
as far as timeouts of waits go, in `protocol_timeouts.dfy`).
`base_scheduler.dfy` is the scheduler without events and timers, `hooked_io.dfy` the retry loop of
one hooked call, `deadlines.dfy` the idle thread and its sleep.

**Fibers.** Resume and yield as swaps of three context slots (`fibers.dfy`).

The parts that the source writes as loops and field updates are methods and classes here, each
proved against a specification function; the theorems are about those functions. Some things in the
state are not in the source and only record what happened: of the IOManager the fate of each
registration and the list of what was woken; of the system the registration each fiber waits for,
the call whose timed wait it is in and the counts of tasks submitted and completed; of the fibers what runs, how far each has come, and what
swapcontext has saved.

## Where the code and what is said of it differ

- The table of chunk size digits has initialisers for 128 of its 256 bytes, so bytes from 0x80 on
  are digits with the value 0 (`HttpFraming.SizeDigitsExactly`, `HttpChunkedRequests.HighByteEndsBody`;
  `HttpStrictChunks.StrictIsPlain` has the exact condition).
- The table of unreserved characters lets `=` through although the comment beside it does not list
  it; form keys with `=` are lost (`Forms.FormRoundTrip` has the exact condition).
- A read of nothing with the position at the capacity dereferences a null cursor; a record list that
  ends with an empty string there cannot be read back (`ByteStreams.RoundTrip` has the exact
  condition).
- The positional read of ByteArray starts in the block of the cursor
  (`ByteArrays.PositionalReadIsRight` has the exact condition).
- Remaining times with bit 31 set become negative for `epoll_wait`, which then blocks for ever
  (`Deadlines.SleepIsBounded`).
- `IOManager::stopping` can turn false again, when an idle thread still has collected callbacks to
  schedule (`ProtocolSafety.StoppingIsStable` has the exact condition). Shutdown is clean all the same.
- `t_fiber` does not name the running fiber after a scheduled fiber of a caller scheduler has yielded;
  after every other yield it does (`Fibers.CurrentIsRunningExactly`).
- The request wrapper refuses every target that is in order for CONNECT
  (`HttpRequests.ConnectTargetIsRefused`).
- The positional buffer getter cuts the length at what is readable at the cursor
  (`ByteArrays.PositionalCutIsRight` has the exact condition).
- ETIMEDOUT also comes back when the original function itself fails with it
  (`HookedIo.Call.DoIo` has the exact condition).
- A wait of a hooked call loses its timeout when the callback of an earlier wait of the same call,
  collected before that wait ended, runs in between (`ProtocolTimeouts.TimeoutIsToCome` has the exact
  condition, `ProtocolTimeouts.TimeoutIsLost` a run).

## Model

| member | source | states |
|---|---|---|
| HttpMachine.RunAppend | gxh/http/http-parser/http_parser.c:713-2084 | Feeding two pieces one after the other is feeding them joined: items, fields, consumed bytes and verdict of the byte machine compose, for any state and any bytes |
| HttpMachine.RunUsed | gxh/http/http-parser/http_parser.c:2053-2084 | A run that neither fails nor stops has consumed every byte; none consumes more than it was given |
| HttpCallbacks.GroupSeen | gxh/http/http-parser/http_parser.c:105-142 | Marks and data callbacks neither lose, invent nor reorder a byte or a notification, as long as bytes fall behind a mark of their own kind |
| HttpCallbacks.RunSuits | gxh/http/http-parser/http_parser.c:2053-2068 | On every input at most one mark is open at any time, the parser state says which, every byte falls behind its own mark, and after an upgrade stop none is left open: the final assert on the marks cannot fire |
| HttpCallbacks.CallbacksShowRun | gxh/http/http-parser/http_parser.c:2053-2084 | The callbacks of one call carry exactly the bytes and notifications of the machine, in order |
| HttpCallbacks.SplitInvariance | gxh/http/http-parser/http_parser.c:638-2084 | Split invariance: however a stream is cut into non-empty or empty pieces, the verdict is that of one call, and if there is no error so are the final parser, the number of consumed bytes and all that the callbacks carry, in order |
| HttpInvariants.StepKeepsInv | gxh/http/http-parser/http_parser.c:713-2050 | From any reachable state any byte keeps every state, index and length obligation of the C asserts |
| HttpInvariants.NoAssertFires | gxh/http/http-parser/http_parser.c:1873-2048 | Over every run no internal assert fires (header states, chunked flag, body length, chunk line counter), and every field stays in the range of its C type |
| HttpInvariants.RematchInName | gxh/http/http-parser/http_parser.c:963-1014 | Whenever the method matcher switches to another method the index stays inside its name |
| HttpExecutor.PrefixDecides | gxh/http/http-parser/http_parser.c:2053-2084 | An error or upgrade stop in a prefix decides the whole buffer |
| HttpExecutor.NameLoop | gxh/http/http-parser/http_parser.c:1248-1382 | The fast loop over a header name does to the parser, in one go, what the byte machine does byte by byte, header size limit included |
| HttpExecutor.NameSkip | gxh/http/http-parser/http_parser.c:1255-1266 | Skipping over an ordinary header name passes the same bytes the machine would |
| HttpExecutor.ValueLoop | gxh/http/http-parser/http_parser.c:1469-1668 | The fast loop over a header value agrees with the byte machine, errors included |
| HttpExecutor.ValueSkip | gxh/http/http-parser/http_parser.c:1497-1518 | The inner skip over a plain value, with its limit on the bytes it looks at, agrees with the byte machine |
| HttpExecutor.SkippedByte | gxh/http/http-parser/http_parser.c:1497-1518 | The one byte the inner skip passes over unseen is harmless: the machine has run into the header limit by then |
| HttpExecutor.IdentityWhole | gxh/http/http-parser/http_parser.c:1873-1908 | A counted body that ends with the buffer is delivered whole and completes the message |
| HttpExecutor.ChunkRun | gxh/http/http-parser/http_parser.c:2007-2028 | A piece of chunk data is delivered whole and lowers the count by its length |
| HttpExecutor.Apply | gxh/http/http-parser/http_parser.c:136-142 | Setting and flushing marks for one byte keeps the marks in step with what is still undelivered |
| HttpExecutor.HttpParser.Stretch | gxh/http/http-parser/http_parser.c:1248-1668 | The two token loops keep the object in step with the machine |
| HttpExecutor.HttpParser.OneByte | gxh/http/http-parser/http_parser.c:703-723 | One turn of the outer loop is one step of the machine, with its callbacks |
| HttpExecutor.HttpParser.Piece | gxh/http/http-parser/http_parser.c:1873-2028 | The body branches, which eat all the buffer has of the body, are the machine on those bytes |
| HttpExecutor.HttpParser.Call | gxh/http/http-parser/http_parser.c:80-134 | Callbacks are made in order, up to the first one that returns something other than 0, which is the error then |
| HttpExecutor.HttpParser.Execute | gxh/http/http-parser/http_parser.c:638-2084 | http_parser_execute refines the byte machine: it succeeds if and only if the run does and no callback refuses, and then final fields, callbacks and result are those of the run; after a refusal the callbacks are those of the run up to the refused one; any other error is the error of the run unless header bytes were over the limit already; the empty buffer and a parser in error behave as the code says |
| HttpProtocol.RunExpected | gxh/http/http-parser/http_parser.c:1757-2045 | On every input the notifications come in protocol order and the body bytes are accounted against the announced length or chunk size |
| HttpProtocol.InitExpected | gxh/http/http-parser/http_parser.c:2148-2156 | So it is from a fresh parser of any type |
| HttpProtocol.BeginsAndCompletesAlternate | gxh/http/http-parser/http_parser.c:1757-1922 | Message begin and complete alternate: one completion per message, at most one message open |
| HttpProtocol.CountedBodyIsExact | gxh/http/http-parser/http_parser.c:1873-1908 | Between the end of the headers and completion a counted message carries exactly Content-Length body bytes: completion is possible then and only then |
| HttpFraming.ContentLengthIsExact | gxh/http/http-parser/http_parser.c:1423-1557 | For all digit strings: accepted exactly while the number without its last digit is within the limit, and then content_length is the decimal numeral, below 2^64-1; otherwise the error is invalid content length |
| HttpFraming.SizeDigitsExactly | gxh/http/http-parser/http_parser.c:223-240 | Chunk size digits are the hexadecimal digits and, because the table has 128 initialisers for 256 entries, every byte from 0x80 on, which reads as 0 |
| HttpFraming.SizeLineRun | gxh/http/http-parser/http_parser.c:1925-2005 | A chunk size line is read as the grammar reads it: same size, same consumed bytes, same refusals, extensions skipped |
| HttpFraming.LimitedLineRun | gxh/http/http-parser/http_parser.c:154-161 | The same with the header limit, which applies to size lines too |
| HttpFraming.ChunkBody | gxh/http/http-parser/http_parser.c:2007-2045 | The data of a chunk is delivered as it is, and exactly CR LF may follow it |
| HttpFraming.ChunkedBodyIsExact | gxh/http/http-parser/http_parser.c:1925-2045 | Machine and independent decoder agree on every string: it fails exactly on malformed bodies and otherwise has delivered exactly the chunk data, sizes, extensions and line ends removed |
| HttpFraming.DecodeEncode | gxh/http/http-parser/http_parser.c:1925-2045 | Decoding an encoded list of chunks gives the chunks joined, whatever follows |
| HttpFraming.EncodedBodyIsDelivered | gxh/http/http-parser/http_parser.c:1925-2045 | What the parser delivers for an encoded body is the chunks joined, and it is at the trailer then |
| HttpMessages.MessageBodyIsExact | gxh/http/http-parser/http_parser.c:1757-2045 | Whole messages: for every run from a fresh parser of any type and every byte of it that ends the headers, the message is complete with them, or everything delivered from there to its completion is its body: the decoded chunks if it is chunked, the next Content-Length bytes, or all that follows; nothing else lies in between, and it is not completed before |
| HttpStrictChunks.StrictIsPlain | gxh/http/http-parser/http_parser.c:1925-2045 | The decoder of the parser is that of section 3.6.1 of RFC 2616, with sizes of hexadecimal digits alone, on exactly the bodies with no byte from 0x80 on behind the digits of a size line; all others the standard refuses |
| HttpStrictChunks.ParserByTheStandard | gxh/http/http-parser/http_parser.c:1925-2045 | On every body without such a byte, and on every body the standard does not refuse, the machine delivers what the standard says |
| HttpChunkedRequests.ChunkedHeadGoes | gxh/http/http-parser/http_parser.c:1198-1844 | From a fresh parser, behind any printable request line and the header that announces chunks it is at the first size line |
| HttpChunkedRequests.HighByteEndsBody | gxh/http/http-parser/http_parser.c:1925-1976 | Concrete case, from the first byte of such a request: the line 0x80 CR LF is taken for the last chunk, where the standard refuses the body |
| HttpUrl.UrlIsTakenApart | gxh/http/http-parser/http_parser.c:2345-2466 | Of every accepted URL of at most 65535 bytes the fields are non-empty, in bounds, ordered and disjoint; all other bytes are delimiters; port is the value of its digits and at most 65535; a schema implies a host; CONNECT has exactly host and port |
| HttpUrl.OneMethodOnly | gxh/http/http-parser/http_parser.c:2345-2466 | No target is in order both for CONNECT and for the other methods |
| HttpUrl.HostReplaced | gxh/http/http-parser/http_parser.c:2259-2338 | The host automaton replaces the whole authority by userinfo, host and port without losing a byte other than delimiters |
| HttpUrl.MarkFields | gxh/http/http-parser/http_parser.c:2346-2422 | The outer loop with its old_uf and len++ marks what the automaton says |
| HttpUrl.ParseHostPart | gxh/http/http-parser/http_parser.c:2259-2338 | The inner loop fails exactly when the host automaton does and otherwise marks the same three fields |
| HttpUrl.ReadPort | gxh/http/http-parser/http_parser.c:2440-2463 | The port loop with its early exit computes the decimal value, or fails exactly if it exceeds 65535 |
| HttpUrl.ParseUrlFields | gxh/http/http-parser/http_parser.c:2346-2466 | http_parser_parse_url as a whole is the specified decomposition |
| HttpRequests.RequestParser.Execute | gxh/http/http_parser.cc:220-235 | One call fails if and only if there is a parser error, an upgrade or a refused URL, now or before; unless the parser errs, the request is built from exactly the callbacks of the run, up to a refused URL if there is one; on success exactly the bytes not parsed are left over |
| HttpRequests.ConnectTargetIsRefused | gxh/http/http_parser.cc:130-142 | Every target that is in order for CONNECT is refused, because the wrapper takes URLs apart as if the method were not CONNECT: it accepts exactly none of them |
| HttpRequests.RequestParser.CallBack | gxh/http/http_parser.cc:84-198 | The callbacks that were made, applied in order |
| HttpRequests.ReplayAppend | gxh/http/http_parser.cc:84-198 | Callbacks of two calls in a row are the callbacks of both together |
| HttpRoundTrip.PrintThenParse | gxh/http/http.cc:161-197 | Print then parse: for every printable request one run over its text takes every byte, reports no error and no upgrade, no callback refuses, and they rebuild method, version, path, query, fragment, body and exactly its headers, the printed connection and (with a body) the printed content-length |
| HttpRoundTrip.ParsePrinted | gxh/http/http_parser.cc:220-235 | The same through the objects: a fresh wrapper and one call of execute, which does not fail and takes every byte |
| HttpRoundTrip.TargetComesApart | gxh/http/http-parser/http_parser.c:2345-2466 | A printed target comes apart into the very path, query and fragment it was printed from |
| HttpRoundTrip.MethodGoes | gxh/http/http-parser/http_parser.c:920-1014 | Every one of the method names is recognised, through all detours of the matcher |
| HttpRoundTrip.TargetGoes | gxh/http/http-parser/http_parser.c:1016-1087 | A target is delivered as one URL |
| HttpRoundTrip.VersionGoes | gxh/http/http-parser/http_parser.c:1089-1196 | The version and the end of the request line set http_major and http_minor |
| HttpRoundTrip.NameIsKnown | gxh/http/http-parser/http_parser.c:1266-1370 | The name matcher is right: whenever it is in the state of a special header, the name so far is a prefix of (or is) that header name in lower case |
| HttpRoundTrip.OrdinaryName | gxh/http/http-parser/http_parser.c:1266-1370 | No other header name makes the parser treat its value specially |
| HttpRoundTrip.HeaderGoes | gxh/http/http-parser/http_parser.c:1198-1712 | An ordinary header line is reported as its name and value, empty values included |
| HttpRoundTrip.ConnectionGoes | gxh/http/http-parser/http_parser.c:1558-1668 | The printed connection line is reported as it is and changes nothing but the connection flags |
| HttpRoundTrip.LengthGoes | gxh/http/http-parser/http_parser.c:1423-1557 | The printed content-length line sets content_length to the size of the body |
| HttpRoundTrip.TailGoes | gxh/http/http-parser/http_parser.c:1757-1908 | The end of the headers and the body of the printed length complete the message |
| HttpRoundTrip.RequestReplay | gxh/http/http_parser.cc:93-198 | The callbacks of a printed request rebuild it |
| Forms.DecodeEncode | gxh/util.cpp:446-506 | UrlDecode undoes UrlEncode for all byte strings and both treatments of blanks |
| Forms.EncodedHasNo | gxh/util.cpp:446-475 | Encoded text has no ampersand, and an equals sign only where the bytes had one |
| Forms.UrlEncodeLazily | gxh/util.cpp:446-475 | The encoder that copies only once it must is the plain map over the bytes |
| Forms.UrlDecodeLazily | gxh/util.cpp:477-506 | So is the decoder |
| Forms.ParseParam | gxh/http/http.cc:204-229 | The splitter with its find calls inserts exactly the pairs of the text, the first of equal keys staying |
| Forms.FormRoundTrip | gxh/http/http.cc:204-229 | Joining encoded pairs and splitting them gives every pair back, cut at the first equals sign of its key; the list itself if and only if no key has an equals sign |
| Forms.FormComesBack | gxh/http/http.cc:59-61 | With such keys, different ignoring case, the map comes back exactly |
| Forms.EqualsInKeyIsLost | gxh/util.cpp:400-421 | Concrete case: a key with an equals sign does not come back, because the table lets that byte through unencoded |
| ByteArrays.GrownIsEnough | gxh/bytearray.cc:503-532 | Adding capacity makes room for what is asked, with less than a block to spare |
| ByteArrays.GrownIsLeast | gxh/bytearray.cc:503-532 | It adds the least number of whole blocks that suffices |
| ByteArrays.ByteArray.constructor | gxh/bytearray.cc:34-42 | One block, position and size 0, big endian |
| ByteArrays.ByteArray.AddCapacity | gxh/bytearray.cc:503-532 | The chain grows by whole blocks to the computed capacity; bytes, position and size stay, and the cursor is set if it was null |
| ByteArrays.ByteArray.Write | gxh/bytearray.cc:346-379 | The block-by-block write is one overwrite of the flat bytes at the position; position, size, capacity and cursor are as for the flat operation, all other bytes stay |
| ByteArrays.ByteArray.CopyIn | gxh/bytearray.cc:346-379 | Its copying loop |
| ByteArrays.ByteArray.Read | gxh/bytearray.cc:381-408 | The read at the cursor returns the flat bytes and moves the position; out of range is reported exactly if they are not there, and a read of nothing at the capacity is the one null dereference |
| ByteArrays.ByteArray.CopyOut | gxh/bytearray.cc:387-407 | The copying loop of the reads: it stays inside the chain exactly if the bytes are there |
| ByteArrays.ByteArray.ReadAt | gxh/bytearray.cc:410-438 | The positional read, as it is: it starts in the block of the cursor |
| ByteArrays.PositionalReadIsRight | gxh/bytearray.cc:415-418 | It reads from the asked position if and only if that lies in the block of the cursor |
| ByteArrays.ByteArray.ToString | gxh/bytearray.cc:534-542 | toString, which reads at the position, returns the bytes from position to size |
| ByteArrays.ByteArray.SetPosition | gxh/bytearray.cc:440-456 | Positions up to the capacity are accepted, the size grows with the position, and the cursor is the block of it |
| ByteArrays.ByteArray.CursorIsNullAtCapacity | gxh/bytearray.cc:440-456 | The cursor is null exactly at the capacity |
| ByteArrays.ByteArray.Clear | gxh/bytearray.cc:333-344 | Back to the first block, empty |
| ByteArrays.ByteArray.GetReadBuffers | gxh/bytearray.cc:560-589 | The slices cover the next min(len, readable) bytes in place |
| ByteArrays.ByteArray.GetReadBuffersAt | gxh/bytearray.cc:591-626 | The same from any position, with the length cut at what is readable at the cursor, as the code does; it faults exactly if that runs past the chain |
| ByteArrays.PositionalCutIsRight | gxh/bytearray.cc:593-596 | That cut is right for a position if and only if it is the cursor's, or the length has to be cut at neither |
| ByteArrays.ByteArray.GatherIsFlat | gxh/bytearray.cc:560-589 | Slices joined are the flat bytes |
| ByteArrays.ByteArray.GetWriteBuffers | gxh/bytearray.cc:628-656 | Room for len bytes, in place, after growing |
| ByteArrays.ByteArray.Scatter | gxh/streams/socket_stream.cc:28-39 | Filling the first r bytes across slices is one flat overwrite |
| ByteCodecs.WireIsOrder | gxh/endian.h:36-84 | Written bytes depend on the chosen order only, not on the host: the swap happens exactly when they differ |
| ByteCodecs.FromWireIsOrder | gxh/endian.h:36-84 | The same for reading |
| ByteCodecs.FixedRoundTrip | gxh/bytearray.cc:65-112 | A fixed integer of w bytes comes back from either order |
| ByteCodecs.ZigzagRoundTrip | gxh/bytearray.cc:114-136 | Decoding a zigzag code gives the number back, for all signed numbers of the width, the least one included |
| ByteCodecs.UnzigzagRoundTrip | gxh/bytearray.cc:114-136 | And encoding gives the code back: zigzag is a bijection |
| ByteCodecs.ZigzagIsSmall | gxh/bytearray.cc:114-128 | Numbers of small magnitude have small codes |
| ByteCodecs.Varint32Length | gxh/bytearray.cc:143-152 | One to five bytes for 32 bits |
| ByteCodecs.Varint64Length | gxh/bytearray.cc:158-167 | One to ten bytes for 64 bits |
| ByteCodecs.VarintBack | gxh/bytearray.cc:255-285 | The reading loop gives the written varint back and consumes exactly its bytes, whatever follows |
| ByteCodecs.StrBack | gxh/bytearray.cc:301-331 | A string comes back cut to what its length prefix can say, whole if and only if it fits; the empty string at the end of the capacity cannot be read |
| ByteCodecs.ItemBack | gxh/bytearray.cc:205-331 | Every record comes back from its bytes, and exactly they are consumed |
| ByteCodecs.AllBack | gxh/bytearray.cc:205-331 | So does every list of records |
| ByteStreams.WroteTwice | gxh/bytearray.cc:346-379 | Two writes in a row are one write of both, capacity included |
| ByteStreams.WriteFixed | gxh/bytearray.cc:65-112 | Fixed integers and float bits are written in the chosen order |
| ByteStreams.Groups | gxh/bytearray.cc:143-167 | The loop of seven-bit groups fills the small array with the varint and never runs out of it |
| ByteStreams.WriteUint | gxh/bytearray.cc:143-167 | A varint is written |
| ByteStreams.WriteStr | gxh/bytearray.cc:181-203 | The four string writers: prefix, then bytes |
| ByteStreams.ReadFixed | gxh/bytearray.cc:205-247 | Fixed integers are read in the chosen order |
| ByteStreams.ReadUint | gxh/bytearray.cc:255-285 | The varint loop reads what the specification says, byte by byte through the chain |
| ByteStreams.ReadStr | gxh/bytearray.cc:301-331 | The string readers |
| ByteStreams.RoundTrip | gxh/bytearray.cc:65-331 | Records written, position put back, records read: the same list, exactly those bytes, for any block size, byte orders and earlier contents, unless the last record is an empty string that ends at the capacity, and exactly then the read faults |
| ByteStreams.ReceiveInto | gxh/streams/socket_stream.cc:28-39 | read(ByteArray) leaves what a write of the received bytes leaves, but for the capacity |
| ByteStreams.ReceivingIsWriting | gxh/streams/socket_stream.cc:28-39 | Contents below the size are equal to those after one write |
| ByteStreams.SendFrom | gxh/streams/socket_stream.cc:48-59 | write(ByteArray) sends exactly the next bytes and moves the position behind them |
| ByteStreams.GatherAt | gxh/bytearray.cc:560-589 | The read buffers hold exactly the next bytes |
| IoEvents.AddKeeps | gxh/iomanager.cc:151-206 | addEvent asserts exactly on a double registration, returns -1 exactly if epoll refuses and then registers nothing; otherwise the context is filled and the state stays coherent |
| IoEvents.DelKeeps | gxh/iomanager.cc:208-244 | delEvent takes out exactly a registered event, schedules nothing, and its registration is dropped |
| IoEvents.CancelKeeps | gxh/iomanager.cc:246-280 | cancelEvent schedules exactly the waiter of the event, once |
| IoEvents.CancelAllKeeps | gxh/iomanager.cc:282-322 | cancelAll schedules the waiter of every registered event, each once, and leaves no bit |
| IoEvents.HandleKeeps | gxh/iomanager.cc:406-460 | The round of idle on one report runs without an assert if and only if the report is still current or epoll refuses; then the reported events are scheduled and the others stay |
| IoEvents.OperationFits | gxh/iomanager.cc:208-322 | MOD or DEL is always the operation that fits what epoll holds |
| IoEvents.EventsAreConserved | gxh/iomanager.cc:76-99 | Adds = scheduled + deleted without firing + still registered, and the pending count is the number of bits |
| IoEvents.WokenOnce | gxh/iomanager.cc:82-99 | No registration is scheduled twice |
| IoEvents.RunIsCoherent | gxh/iomanager.cc:151-322 | Over every sequence of calls: no assert fires if and only if the calls are proper, and then bits, contexts, epoll masks and counts are coherent and conserved |
| IoMoves.PerformMoves | gxh/iomanager.cc:208-322 | What every operation other than addEvent does to registrations: some are cleared, each with its waiter scheduled or dropped, nothing else moves |
| IoMoves.AddMoves | gxh/iomanager.cc:151-206 | addEvent adds one registration and moves nothing else |
| IoManagers.IoManager.ContextResize | gxh/iomanager.cc:140-149 | Resizing keeps the contexts below the new size and adds empty ones |
| IoManagers.IoManager.TriggerEvent | gxh/iomanager.cc:82-99 | Bit off, waiter scheduled, context reset, as specified |
| IoManagers.IoManager.AddEvent | gxh/iomanager.cc:151-206 | The method does what the specification says and keeps the manager coherent |
| IoManagers.IoManager.DelEvent | gxh/iomanager.cc:208-244 | The same for delEvent |
| IoManagers.IoManager.CancelEvent | gxh/iomanager.cc:246-280 | The same for cancelEvent |
| IoManagers.IoManager.CancelAll | gxh/iomanager.cc:282-322 | The same for cancelAll |
| IoManagers.IoManager.HandleEvents | gxh/iomanager.cc:406-460 | The loop of idle over a batch of reports |
| Timers.ExpiryIsExact | gxh/timer.cc:137-177 | Exactly the timers due by now fire, in deadline order, each with its callback; recurring ones stay one period from now, the others are spent; nothing else changes |
| Timers.ProbeDoesNotMatter | gxh/timer.cc:154-158 | Wherever the address of the search timer falls among equal deadlines, the expired ones end at the same place |
| Timers.RolloverFiresAll | gxh/timer.cc:192-200 | After a clock that jumped back everything fires |
| Timers.RefreshMovesLater | gxh/timer.cc:52-65 | refresh never moves a deadline earlier |
| TimerManagers.TimerManager.AddTimer | gxh/timer.cc:100-106 | A timer is put in at its place; the front is reported exactly if it comes first and nobody was told yet |
| TimerManagers.TimerManager.Cancel | gxh/timer.cc:41-50 | cancel takes the timer out and clears its callback, or reports that there was none |
| TimerManagers.TimerManager.Refresh | gxh/timer.cc:52-65 | refresh moves the deadline only while the timer is out of the set |
| TimerManagers.TimerManager.Reset | gxh/timer.cc:67-91 | So does reset, which reports the front |
| TimerManagers.TimerManager.GetNextTimer | gxh/timer.cc:121-135 | The remaining time of the first timer, and the tickled mark is cleared |
| TimerManagers.TimerManager.ListExpiredCb | gxh/timer.cc:137-177 | The method returns and leaves what the specification says, whatever the address of the search timer |
| Protocol.Search | gxh/scheduler.cc:147-180 | The task a thread takes is the first one it may take: pinned elsewhere or still running ones are passed over |
| ProtocolSafety.RunKeeps | gxh/iomanager.cc:359-472 | Every step of every thread keeps the system invariant, over every interleaving |
| ProtocolSafety.CleanShutdown | gxh/iomanager.cc:342-472 | Once every thread has left run there is no queued and no running task, no registered event or waiter, no armed timer and no expired callback that was not scheduled, and every task ever submitted was completed |
| ProtocolSafety.TasksAreConserved | gxh/scheduler.cc:136-221 | In every reachable state submitted = queued + in a thread's hands + completed, the active count is the number of threads with a task, and pinned tasks are only in the hands of their thread |
| ProtocolSafety.OneWakePerWait | gxh/hook.cc:103-146 | However readiness, timeout callback and close race, a waiting fiber is in the queue at most once: once if its registration was scheduled; not at all while it is registered, and then it is the waiter, or after the event was deleted |
| ProtocolSafety.NoEarlyTimeout | gxh/hook.cc:113-124 | A call is marked as timed out only when its timeout has passed since it began |
| ProtocolTimeouts.TimeoutIsToCome | gxh/hook.cc:103-146 | In every reachable state, of every fiber that waits with a timeout: the timeout can still come if and only if the call is not marked; then its callback is armed, collected, queued or in a thread's hands, and if it runs while the event is registered it puts that fiber in the queue; a marked call has no callback that does anything |
| ProtocolTimeouts.MarkEndsWait | gxh/hook.cc:113-124 | Of a wait that is not marked and still registered: only the timeout callback of its own call sets the mark, and the wait is over with that unless epoll_ctl refuses. So a registered wait is marked only if it began so or epoll_ctl refused |
| ProtocolTimeouts.TimeoutIsLost | gxh/hook.cc:103-146 | A concrete run of sixteen steps from the start: a fiber waits with a timeout, event registered and timer armed, and no timeout callback will wake it |
| ProtocolSafety.StoppingIsStable | gxh/scheduler.cc:82-85 | Once stopping is true every step keeps it but one: an idle thread that schedules a callback it had already collected. The condition is exact |
| ProtocolSafety.StoppingIsNotStable | gxh/iomanager.cc:393-403 | A concrete run of nine steps from the start into such a state, and the step behind it |
| BaseScheduler.BaseStoppingIsStable | gxh/scheduler.cc:82-96 | The base scheduler: over every run, once stopping was true it stays true |
| BaseScheduler.BaseCleanShutdown | gxh/scheduler.cc:136-221 | The base scheduler: over every run, once one idle fiber has ended nothing is queued, no task runs and every task submitted was completed |
| Schedulers.Scheduler.ScheduleNoLock | gxh/scheduler.h:125-133 | Empty tasks are not queued, and a tickle is asked for exactly if the queue was empty |
| Schedulers.Scheduler.Take | gxh/scheduler.cc:147-184 | The scan takes the first eligible task, keeps the order of the others, and tickles exactly if it passed over a task of another thread or left tasks behind |
| Schedulers.TakeIsPick | gxh/scheduler.cc:147-184 | The scan finds the task that a step of the protocol picks |
| HookedIo.Call.DoIo | gxh/hook.cc:83-149 | A hooked call returns what the first answer other than EINTR and EAGAIN says unless a wait fails first; every EAGAIN is one wait; no timer is left behind; and the error is ETIMEDOUT if and only if the call was marked when it looked after its last wait, by the callback of that wait or a late one of the wait before, or the function or registration failed with that very error; a mark that comes later changes nothing |
| Deadlines.NoMissedDeadline | gxh/iomanager.cc:333-403 | Over every run of one idle thread and any timer calls: while it sleeps a tickle is in the pipe, or it does not block, or it wakes at or before the earliest deadline, late by no more than the time between asking and sleeping |
| Deadlines.RunKeeps | gxh/timer.cc:179-190 | What every step of sleeper and timer calls keeps |
| Deadlines.SleepIsBounded | gxh/iomanager.cc:380-386 | The sleep is bounded, and no longer than the remaining time, if and only if bit 31 of the remaining time is clear |
| Deadlines.LongTimerSleepsForEver | gxh/iomanager.cc:380-386 | A concrete run: a timer of 2^31 ms makes epoll_wait block for ever, and no time that goes by wakes the thread though the timer is due |
| Fibers.ResumeIsSafeExactly | gxh/fiber.cc:147-162 | A resume loses no saved context if and only if it is called by the fiber whose slot it uses; t_fiber is the resumed fiber then |
| Fibers.YieldReturns | gxh/fiber.cc:164-182 | A yield lands where the resumer left off, and loses nothing |
| Fibers.RunIsIntact | gxh/fiber.cc:147-198 | In every state of every disciplined run all saved contexts are intact, and t_fiber names the running fiber or, while the root fiber runs, the main fiber: GetThis()->yield() in a scheduled fiber is that very fiber's |
| Fibers.ThereAndBack | gxh/fiber.cc:147-198 | Over every run from the main fiber every yield lands where its partner was when it last resumed: that resume was of the yielding fiber, the partner has not run since, and it goes on at the very point, whatever was resumed, worked, yielded and reset in between, also by fibers that came from other threads |
| Fibers.CurrentIsRunningExactly | gxh/fiber.cc:164-182 | After a yield t_fiber names the running fiber if and only if there is no caller scheduler or the root fiber yielded |
| Fibers.CurrentInRun | gxh/fiber.cc:147-182 | In every state of every run from the main fiber t_fiber fails to name the running fiber if and only if the root fiber runs and has resumed another one since the main fiber resumed it |
| Fibers.FiberThread.Resume | gxh/fiber.cc:147-162 | The method switches as specified, and t_fiber is the resumed fiber |
| Fibers.FiberThread.Yield | gxh/fiber.cc:164-182 | The method switches as specified, with t_fiber naming what runs exactly as said above |
| Fibers.FiberThread.YieldThis | gxh/scheduler.cc:91-96 | GetThis()->yield() inside a scheduled fiber suspends that fiber |

## Left out

- HttpExecutor.HttpParser.Execute: what on_headers_complete returns means something of its own (skip the body, upgrade) and is taken to be 0; pausing is not modelled.
- HttpExecutor.HttpParser.Execute: of a call that ends in an error the fields and the byte count are left open, and the callbacks too unless one of them refused; where an error is noticed, and the exact moment of the header overflow error, depend on where buffers are cut.
- HttpCallbacks.SplitInvariance: of a failing stream only the verdict is compared, since the moment of the overflow error depends on the cuts.
- HttpMachine.RunAppend: nread is unbounded here and has 32 bits in the source; the difference shows only in buffers of more than 4 GiB.
- Forms.UrlDecodeLazily: isxdigit is taken to refuse bytes from 0x80 on, as in the C locale.
- HttpUrl.ParseUrlFields: offsets and lengths are unbounded here and have 16 bits in the source; they agree for URLs of at most 65535 bytes.
- HttpRequests.RequestParser.Execute: of a call that fails in the parser itself the request as built so far is left open.
- HttpRoundTrip.PrintThenParse: asks for one-digit version numbers, ordinary header names and values, a target of at most 65535 bytes, and a header section within the parser's limit; CONNECT and websocket requests print differently and are left out.
- Responses, cookies, body parameters and the printing of responses: the same machinery as requests.
- The lenient build of the parser (HTTP_PARSER_STRICT 0).
- ByteArrays.ByteArray.GetReadBuffersAt: the slices pushed before a fault are not described.
- ByteArrays.ByteArray.Clear: the release of the dropped blocks is not modelled, nor is the destructor.
- ByteArrays.ByteArray.ToString: asks for a capacity below 2^64, as memory sizes are; the block count of addCapacity is computed in whole numbers, where the source rounds up a double, exact below 2^53.
- ByteArray file input and output and the hexadecimal dump.
- ByteCodecs.ZigzagRoundTrip: bit operations are written as arithmetic; the wrap-around of negation and doubling is explicit.
- IoManagers.IoManager.AddEvent: finding or growing the table is one step under its lock, and whether the kernel agrees is a parameter (ok); epoll itself is the interest set it was told.
- IoManagers.IoManager.HandleEvents: reports are taken to be current or wholly outdated when the lock of the descriptor is taken, which is more than the code checks; IoEvents.HandleKeeps says exactly what happens otherwise.
- ProtocolSafety.CleanShutdown: IOManager::stopping, yield, and each call under a lock are one step; after stop nobody outside schedules; a fiber is scheduled only while it neither waits nor is queued; sums of times fit a word.
- ProtocolSafety.OneWakePerWait: Scheduler::run, IOManager::idle and do_io are steps of a relation here, since other threads come in between; their loops over queue, reports and answers are the methods Schedulers.Scheduler.Take, IoManagers.IoManager.HandleEvents and HookedIo.Call.DoIo.
- HookedIo.Call.DoIo: what the system call answers and what happens during and behind a wait are parameters, as far as they are known; a call that has not returned by then is Waiting. A cancelled event whose descriptor is closed shows as a resume.
- Deadlines.NoMissedDeadline: one idle thread and a clock that does not go back; threads that sleep beside it are not modelled.
- Fibers.RunIsIntact: stacks and machine contexts are numbers that say how far a fiber has come; a fiber whose function has returned yields through the pointer it took from t_fiber when it was entered, which behind a resume is that fiber; of fibers that change threads only coming and going is modelled, each thread by itself; nested schedulers are not modelled.
- Timers.ExpiryIsExact: condition timers are timers whose callback looks at its condition; the look itself is not modelled.
- Sockets, servers, servlets, configuration, logging, addresses, the connection pool, locks and reference counts.
