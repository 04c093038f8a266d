# Verification of the RTTP example programs

This project models the programs that the repository builds on the RTTP transport: the HTTP-like
file server and its downloading client, the ping/echo programs in their RTTP, TCP and Unity forms,
the datagram queues under them, the pacing of the pressure tester and the tokenizer they share.
The transport library itself is a closed binary. It appears as an environment that may do everything
its documentation allows: `rt_send` takes any prefix or answers a value that is not positive,
`rt_recv` hands over any chunk, or 0 for a closed connection, or a negative code. A socket carries
two scripts of arbitrary integers, so a statement about every script is a statement about every
fragmentation. It also remembers the answers it gave: `Gave` says that the answers since some moment
were all positive, `Declined` that one more followed and brought nothing, and with these two the
handlers state why they stop.

Each stateful part comes in two layers. Functions of a state value describe what each handler does;
lemmas prove the properties of those functions over all runs, all interleavings and all answers of
the transport. Classes with the fields and loops of the programs stand beside them, and each method
is proved to take its object to exactly the state the function gives.

| file | part of the system |
|---|---|
| Streams, Transport | byte strings, the transport socket, the partial-send queue |
| HttpText, LineReader | heads, lines, the replies; reading a head byte by byte |
| DownloadClient, FileThread, DownloadServer | a download connection of the server, the file thread, their objects |
| SecondRequest | more than one request on a connection |
| DownloadInvariant, DownloadSteps, FileServer, FileServerTheorems | any number of connections, one file thread, all interleavings |
| FileServerLimits, FileServerExamples, FileServerCrowd | what the server does not guarantee, with exact conditions; concrete runs; the size of the op queue |
| Downloader, DownloadReceiver, EndToEnd, Progress, WriterLimits | the downloading client with its writer thread; server and clients together; when a transfer or a writer is stuck |
| Frames, PacketReader, EchoServer | length-prefixed frames, the incremental decoder, the echo server |
| PingProtocol, PingSystem, PingClient | the ping client, its table, and client and server composed |
| TcpEcho | the asynchronous TCP echo session |
| UnityDecoder, UnitySender, UnityUdp | the Unity client |
| UvQueue, AsioQueue, SelectQueue | the datagram queues of the libuv, asio and select-loop programs |
| Pacing, Tokenizer | the pressure tester's timer; `split_string` |

## Assumptions

- In the runs of the whole server a connection carries one request head. No event arrives on a socket
  after `rt_close`, and handlers are not entered again from inside `rt_send`.
- Files do not change while they are served. Within a file `fread` may deliver any count from nothing
  to what was asked for. A file handle is known by its path: the server keeps one handle per path and
  never removes it. Sending on a closed socket answers the invalid-socket code.
- The invariant of the file server, the theorems of FileServerTheorems and FileServerLimits, and those
  of EndToEnd hold for every run, with no condition on it: any number of clients, a full op queue that
  loses operations (`lost` is their history), a file thread that has crashed, reads that fail and
  peers that go away at any moment. Only `QueueNeverOverflows` has an operating condition, at most
  128 clients with operations queued (`Roomy`), and `RushOverflowsExactlyBeyond128` shows that 128 is
  the right number.
- The HTTP library is a function from a head to its result; the end-to-end theorems ask that it decode
  the server's own success heads to the size in them (`HttpDecodes`), which `HttpCanDecode` shows
  possible.
- The downloader's disk is what `fwrite` has accepted. A writer thread that cannot create its file is a
  writer that never takes a step.
- Hosts are little-endian. Sizes and positions are unbounded except where the program's width matters:
  packet numbers wrap at 32 bits, `ToInt32` is signed, `file_size_ - 1` is 64-bit, the pacing products
  are kept inside `int`.
- Asynchronous reads and writes complete with all they asked for or fail with less; the operating
  system completes a send only after it was begun.

## Where the code does something its callers may not expect

The first name in brackets is the exact statement, the others are runs or inputs that show the failure.

- A push into the full op queue is refused and nobody notices (`LostExactlyWhenRefused`,
  `CrowdOverflowsExactlyBeyondTheRing`). Without its open a request is never answered, without its
  read a transfer never goes on (`StallsExactlyWhen`, `LatecomerIsNeverAnswered`), without its close a
  connection keeps its file open (`KeepsFileExactlyWhen`).
- A request that starts at or beyond the end of the file leaves the connection open with nothing under
  way (`StallsExactlyWhen`, `StallIsReachable`). A write event ends that only for a request
  right at the end of a non-empty file (see `WriteEventEndsStall`); every other stall lasts until the
  peer goes away (`StallLastsUntilBroken`, `EmptyFileStallsForGood`).
- A read failure reported after the connection has let go of its handle queues a close of a null
  handle, if the queue has room, and that close stops the file thread for good
  (`CrashesExactlyWhenOrphaned`, `CrashIsForever`, `NullCloseIsReachable`). In the program a null
  pointer is dereferenced there, which as a rule ends the whole process; the model stops the file
  thread alone, and what it says of later events holds for a process that lives on.
- A closed connection keeps its file open when a successful open is reported to it after it was closed
  and no failed read follows, or its close was refused (`KeepsFileExactlyWhen`, `LeakIsReachable`), and
  then for ever (see `LeakIsForever`). Being closed during the open is not enough, as
  `NoLeakWithoutFile` shows.
- A second request on a connection breaks its stream for good as soon as it is answered too, its open
  reported, found or not, or its head refused (`SecondAnswerBreaksStream`, `SecondOpenBreaksStream`).
  The bytes sent and queued are as many as head and positions say exactly when there is no second
  answer and no request came into a body (`CountedExactlyWhen`); so the stream survives a second
  request only while its open is pending, or when the full queue refused that open. The same request
  made twice puts two heads in the queue (`TwoHeadsForOneRequestTwice`).
- A 206 reply announces the size of the whole file, not of the range
  (`AnnouncedIsSentExactlyFromTheStart`, `PartialContentAnnouncesTheWhole`).
- The error event of the downloader tells its writer thread nothing, and neither does a close before
  the size is known (`ToldExactlyWhenClosedInBody`). The writer of a connection that is gone is left
  running when the body is incomplete and nobody told it, or when the head announced nothing
  (`LeftRunningExactlyWhenNotTold`, `WriterIsLeftRunning`), and then for good (see `SettledForGood`).
- The Unity decoder never gets past a frame of four bytes (`CsAgreesUnlessFour`,
  `FourIsNeverDelivered`).
- A hard error in the middle of a packet makes the Unity client send its beginning twice
  (`StreamIntactUnlessErrorMidPacket`, `FirstByteGoesOutTwice`), and an answer of -1 silences it for
  good (`WaitsExactlyWhenDeclined`, `OneRefusalSilencesTheClient`).
- The libuv queue ignores the answer to a chained send and is dead once that is a refusal
  (`DeadExactlyWhenChainRefused`, `OneChainedRefusalKills`).
- The file server sends every datagram to whoever it heard last (`WellDirectedWhen`,
  `TwoPeersGoAstray`).
- The select-loop programs send a datagram directly even while others are queued
  (`InOrderExactlyWithoutOvertaking`, `SecondOvertakesFirst`).

## Model

| member | source | states |
|---|---|---|
| Transport.SendResult | rttp_api_doc.md:105-125 | `rt_send` never takes more than it is offered, and nothing on a closed socket |
| Transport.RecvResult | rttp_api_doc.md:84-103 | `rt_recv` never hands over more than there is room for or than has arrived |
| Transport.FlushConserves | example/rttp_async_ping_client.h:41-57 | for every answer pattern, sending moves bytes from the front of the queue to the wire, and the queue that is left depends only on how many were taken |
| Transport.AdvanceTwice | example/rttp_async_ping_server.h:29-46 | taking m and then n bytes off the send queue is taking m + n, whole items and resume positions included |
| Transport.RtsocketSendData | example/rttp_asio_file_server.cpp:11-32 | the send loop ends, counts what it sent, leaves queue and wire as the value-level flush says, and stops only with an empty queue or at an answer that took nothing |
| Transport.FlushEnds | example/rttp_asio_file_server.cpp:11-32 | for every answer pattern sending uses answers as long as they are positive: it stops with an empty queue, at the first that is not, or at the end of the script |
| Transport.FlushWilling | example/rttp_asio_file_server.cpp:11-32 | a library that takes all it is offered empties the queue with one call an item |
| Transport.SendQueued | example/rttp_async_ping_server.h:29-46 | sending stops with an empty queue, every answer used having taken something, or with one answer that took nothing, and it was the last; the bytes accepted are the sum of the positive answers, and accepted bytes followed by unsent tails are the same stream before and after |
| Transport.RecvMore | example/rttp_async_ping_server.h:68-81 | one `rt_recv` at the fill position appends exactly the chunk that left the stream |
| Transport.UnsentSnoc | example/os_common.h:71-79 | queueing an item appends its unsent tail to what is still to be sent |
| HttpText.LineEnds | example/rttp_asio_file_server.cpp:522-551 | a line completed behind whole lines ends the head exactly when it is a bare LF or CRLF, seen from the raw bytes |
| HttpText.HeadsEndEitherWay | example/rttp_asio_file_server.cpp:522-551 | a head may end with LF LF or CR LF CR LF, and not with a carriage return alone |
| HttpText.ReplyHeadEnds | example/rttp_asio_file_server.cpp:112-126 | the success reply is one head: its only blank line is its last |
| HttpText.ReplyHeadInjective | example/rttp_asio_file_server.cpp:122-126 | replies for different sizes differ |
| HttpText.DecimalInjective | example/rttp_asio_file_server.cpp:122 | the decimal text of a size determines the size |
| HttpText.DecimalReads | example/rttp_asio_file_server.cpp:122 | read in base ten the text of a number is the number, without a leading zero |
| HttpText.RangeHeadShape | example/rttp_asio_file_server.cpp:112-126 | a 206 reply names the range from the offset to the last position and announces the size of the whole file |
| HttpText.LastPosReads | example/rttp_asio_file_server.cpp:119 | the last position is the size minus one in 64 bits, so that of an empty file is the largest number there is |
| HttpText.TwelveBytes | example/rttp_asio_file_server.cpp:112-126 | the whole reply for a file of twelve bytes, letter by letter |
| HttpText.SecondOfTwoBytes | example/rttp_asio_file_server.cpp:112-126 | the whole reply for the second of two bytes |
| HttpText.ErrorReplies | example/rttp_asio_file_server.cpp:132-145 | the 404 reply and, for every message, the 400 reply, letter by letter |
| LineReader.RecvLine | example/rttp_asio_file_server.cpp:476-493 | whatever was read is in the buffer; a positive result is a line whose only newline is its last byte; with room left any other result is the answer `rt_recv` gave last, and the first that was not positive; with 4096 bytes of one line it is -2, which no documented code is |
| LineReader.ReadRequestHead | example/rttp_asio_file_server.cpp:509-552 | lines kept and buffer are the bytes received since the last head; the next head is complete exactly when they end with their first blank line; otherwise the connection waits exactly when the last answer was -1, and is gone for any other answer and for a line of 4096 bytes without an end |
| HttpText.NoBlankInPartialLine | example/rttp_asio_file_server.cpp:512-517 | an unfinished line adds no place where a head could end |
| FileThread.FRead | example/rttp_asio_file_server.cpp:234-243 | a successful read is a non-empty piece of the file at the offset; failure only at the end of the file or on a short read of nothing |
| DownloadSteps.RequestKeeps | example/rttp_asio_file_server.cpp:538-542 | accepting a request keeps the connection's invariant |
| SecondRequest.CountedExactlyWhen | example/rttp_asio_file_server.cpp:75-146 | after any calls of a connection's handlers, in any order and with any arguments, the bytes sent and queued are as many as the reply head and the positions say exactly when it was not answered twice and no request came into a body; otherwise they are more |
| SecondRequest.SecondAnswerBreaksStream | example/rttp_asio_file_server.cpp:538-569 | once a second answer is given, found, not found or refused, the stream is not a head and a piece of a file any more, and never again |
| SecondRequest.SecondOpenBreaksStream | example/rttp_asio_file_server.cpp:104-146 | on any connection that is being served, whatever the second request asks for, the stream is broken when its open is reported |
| SecondRequest.TwoHeadsForOneRequestTwice | example/rttp_asio_file_server.cpp:538-542 | one request made twice puts two reply heads in the queue |
| DownloadSteps.RefuseKeeps | example/rttp_asio_file_server.cpp:132-145 | an error reply keeps the stream exact and closes once it is sent |
| DownloadSteps.BadRequestKeeps | example/rttp_asio_file_server.cpp:554-569 | rejecting an undecodable head keeps the invariant |
| DownloadSteps.CloseKeeps | example/rttp_asio_file_server.cpp:62-73 | closing keeps the invariant in every phase, with a read under way or an open pending |
| DownloadSteps.ContinueKeeps | example/rttp_asio_file_server.cpp:465-473 | finishing or reading on restores the pipeline after bytes have left the queue |
| DownloadSteps.WritableKeeps | example/rttp_asio_file_server.cpp:450-474 | `on_rtsocket_write` keeps stream, pipeline and phase |
| DownloadSteps.OpenDoneKeeps | example/rttp_asio_file_server.cpp:104-146 | the open completion keeps them, found or not |
| DownloadSteps.ReadDoneKeeps | example/rttp_asio_file_server.cpp:75-102 | the read completion keeps them: the block extends the stream at the current position |
| FileServer.OpFindsItsFile | example/rttp_asio_file_server.cpp:227-284 | a READ at the head of the op queue finds its initiator registered and the file open, a CLOSE of a handle an open file |
| FileServer.ExecKeeps | example/rttp_asio_file_server.cpp:218-298 | executing it keeps the shared handles counted and its client's invariant |
| FileServer.ExecElsewhere | example/rttp_asio_file_server.cpp:227-284 | executing it changes nothing for other clients of the same file |
| FileServer.QueueBound | example/rttp_asio_file_server.h:107 | with at most two operations a client the queue is no longer than twice its clients |
| DownloadSteps.LosingKeeps | example/rttp_asio_file_server.cpp:183-216 | when the full queue refuses an operation and nobody looks, the connection is still in its invariant, which says what becomes of it |
| FileServer.ApplyKeeps | example/rttp_asio_file_server.cpp:183-216 | whether a handler's push succeeds or is refused, the server stays in its invariant |
| FileServer.LostStep | example/rttp_asio_file_server.cpp:183-216 | an event loses exactly the operation it pushes into a full queue |
| FileServer.OthersUntouched | example/rttp_asio_file_server.cpp:50-146 | an event changes nothing in the share of a client it does not concern |
| FileServer.NextKeeps | example/rttp_asio_file_server.cpp:450-581 | every event, without condition, keeps the invariant of the whole server |
| FileServer.RunKeeps | example/rttp_asio_file_server.cpp:50-298 | so does every run |
| FileServerTheorems.HandlesAreCounted | example/rttp_asio_file_server.cpp:218-298 | over every run, `fp` is open exactly while `operators` is non-empty, a READ about to be executed finds its initiator registered, the file open and its bytes in it, a CLOSE of a handle an open file |
| FileServerTheorems.OperationsAreAnswered | example/rttp_asio_file_server.cpp:218-298 | over every run an open answers whether the file exists and how long it is, a read brings the piece asked for as far as `fread` delivers, and after a close its client is no longer registered |
| FileServerTheorems.TwoOperationsEach | example/rttp_asio_file_server.cpp:50-110 | over every run no client has more than two operations queued |
| FileServerTheorems.QueueNeverOverflows | example/rttp_asio_file_server.cpp:183-216 | over every run along which at most 128 clients have operations queued no push is lost |
| FileServerTheorems.LostExactlyWhenRefused | example/rttp_asio_file_server.cpp:183-216 | over every run an operation has been lost exactly when some event pushed it with the ring full, and the ring never holds more than 256 |
| FileServerCrowd.CrowdOverflowsExactlyBeyondTheRing | example/rttp_asio_file_server.h:107 | n clients asking while the file thread sleeps lose an operation exactly when n exceeds 256 |
| FileServerCrowd.RushOverflowsExactlyBeyond128 | example/rttp_asio_file_server.h:107 | n clients with a READ and a CLOSE queued each have lost an operation exactly when n exceeds 128 |
| FileServerCrowd.LatecomerIsNeverAnswered | example/rttp_asio_file_server.h:107 | the client too many is never answered, in any further run, until its peer breaks the connection |
| FileServerTheorems.StreamIsHeadAndFile | example/rttp_asio_file_server.cpp:75-131 | over every run, accepted bytes then queued bytes are the reply head and the file from the requested to the current position |
| FileServerTheorems.ServesWhatWasAsked | example/rttp_asio_file_server.cpp:538-542 | over every run the file and offset a connection is served are those of a request made on it |
| FileServerTheorems.OneReadAtATime | example/rttp_asio_file_server.cpp:50-60 | over every run at most one read is queued or posted, of at most 2 MiB at `cur_file_pos_` and with `reading_file_` set, `reading_file_` is set for nothing but that read or one the full queue refused; `send_deq` never exceeds three items, and with fewer and something left to read it is set |
| FileServerTheorems.NeverStalls | example/rttp_asio_file_server.cpp:85-93 | over every run a transfer that is not over has bytes queued or a read under way, unless the full queue refused that read |
| FileServerLimits.StallsExactlyWhen | example/rttp_asio_file_server.cpp:104-131 | over every run, a live connection that has asked and whose bytes have all gone out has nothing under way exactly when its request starts at or beyond the end of the file, or the full queue refused its open or its read |
| FileServerLimits.WriteEventEndsStall | example/rttp_asio_file_server.cpp:465-473 | over every run, a write event ends a stall, by closing, exactly when the request starts right at the end of a non-empty file; otherwise it changes nothing |
| FileServerLimits.StallLastsUntilBroken | example/rttp_asio_file_server.cpp:450-474 | every other stall lasts: nothing happens to the connection in any further run until its peer breaks it |
| FileServerExamples.StallIsReachable | example/rttp_asio_file_server.cpp:104-131 | every request at or beyond the end of a file reaches a stall |
| FileServerExamples.EmptyFileStallsForGood | example/rttp_asio_file_server.cpp:104-131 | a request for an empty file waits until the peer breaks the connection |
| FileServerTheorems.FinishedMeansWhole | example/rttp_asio_file_server.cpp:465-468 | over every run, a transfer that the write handler or a read completion closes has had the head and the file, from the requested position to the end, accepted to the last byte |
| FileServerTheorems.AnnouncedIsSentExactlyFromTheStart | example/rttp_asio_file_server.cpp:115-122 | a finished transfer has sent as many body bytes as announced exactly when it began at offset 0 |
| FileServerExamples.ServingIsReachable | example/rttp_asio_file_server.cpp:75-131 | every file that fits one read is served from every offset inside it, nothing is lost, and the connection is closed |
| FileServerExamples.PartialContentAnnouncesTheWhole | example/rttp_asio_file_server.cpp:115-122 | a finished 206 transfer of one byte behind a head that announces two |
| FileServerLimits.PushesNullClose | example/rttp_asio_file_server.cpp:95-101 | an event pushes a close of a null handle exactly when it reports a failed read to a connection without its handle |
| FileServerLimits.CrashesExactlyWhenOrphaned | example/rttp_asio_file_server.cpp:95-101 | over every run, the file thread has used a null handle, or has one queued to use, exactly when a failed read was reported to a connection without its handle while the queue had room |
| FileServerLimits.CrashIsForever | example/rttp_asio_file_server.cpp:278-284 | once it has used one, no operation is executed in any further run |
| FileServerExamples.NullCloseIsReachable | example/rttp_asio_file_server.cpp:95-101 | a concrete run stops the file thread this way |
| FileServerLimits.KeepsFileExactlyWhen | example/rttp_asio_file_server.cpp:62-110 | over every run, a closed connection with nothing queued or posted is still registered on a file exactly when a successful open was reported to it after it was closed and no failed read has been reported since, or the full queue refused its close |
| FileServerLimits.LeakIsForever | example/rttp_asio_file_server.cpp:278-284 | a closed connection still registered with nothing queued or posted stays registered, and its file open, in every further run |
| FileServerExamples.LeakIsReachable | example/rttp_asio_file_server.cpp:62-73 | a connection closed during its open, whose file opens and reads, is one |
| FileServerExamples.NoLeakWithoutFile | example/rttp_asio_file_server.cpp:267-270 | a connection closed during its open whose file does not exist is registered nowhere |
| DownloadServer.AsyncFileServer.Push | example/rttp_asio_file_server.cpp:183-216 | a push into the full ring is refused and not noticed |
| DownloadServer.AsyncFileServer.FileAccessRound | example/rttp_asio_file_server.cpp:222-290 | one round of the file thread changes handles and posts completions as the value-level execution says |
| DownloadServer.DownloadFileClient.AsyncReadFile | example/rttp_asio_file_server.cpp:50-60 | the object's read start is the one the invariants are about |
| DownloadServer.DownloadFileClient.Close | example/rttp_asio_file_server.cpp:62-73 | likewise its close |
| DownloadServer.DownloadFileClient.HandleReadFileComplete | example/rttp_asio_file_server.cpp:75-102 | likewise its read completion: a block is the next piece of what is sent and queued, the position moves by its length, and the queue is offered to the library; a failure drops the handle and closes |
| DownloadServer.DownloadFileClient.HandleOpenFileComplete | example/rttp_asio_file_server.cpp:104-146 | likewise its open completion: sent and queued bytes grow by the success reply for the requested offset and the size reported, or by the 404 reply, and the queue is offered to the library |
| DownloadServer.DownloadFileClient.OnRtsocketWrite | example/rttp_asio_file_server.cpp:450-474 | likewise its write handler, which offers the queue to the library |
| DownloadServer.DownloadFileClient.OnRtsocketRead | example/rttp_asio_file_server.cpp:495-581 | the bytes received are cut into heads at their blank lines, whatever chunks they came in, and each head is acted on once, in order, with all lines kept so far; when the last is a request both positions are its offset, the path is its file, and the open is queued or refused by the full queue; when it is not, the bytes sent and queued have grown by the 400 reply with its message; without another blank line the connection waits exactly when `rt_recv` answered -1 last, and is closed otherwise |
| DownloadServer.HeadMeans | example/rttp_asio_file_server.cpp:538-569 | one head by itself: a request sets both positions to its offset and queues the open of its file; anything else extends what is sent by the 400 reply and closes once that has gone out |
| DownloadServer.HeadIsAnEvent | example/rttp_asio_file_server.cpp:538-569 | acting on the first head of a connection is the request or bad-request event of the runs |
| DownloadServer.LastHeadMeans | example/rttp_asio_file_server.cpp:538-569 | of a series of heads the last decides positions, path and reply |
| DownloadServer.PushMore | example/rttp_asio_file_server.cpp:183-216 | pushing two lists of operations one after the other queues and loses what pushing them together does |
| Downloader.HeadByteKeeps | example/rttp_async_file_client.cpp:191-240 | reading a byte of the head keeps the receiver's invariant and loses no byte |
| Downloader.BodyChunkKeeps | example/rttp_async_file_client.cpp:248-267 | reading a chunk of the body keeps the conservation of body bytes |
| Downloader.GoneKeeps | example/rttp_async_file_client.cpp:273-292 | so does losing the connection |
| Downloader.ErrorKeeps | example/rttp_async_file_client.cpp:310-319 | so does the error event, which tells the writer nothing |
| Downloader.TakesKeeps | example/rttp_async_file_client.cpp:136-146 | so does the writer's step under the lock |
| Downloader.WritesKeeps | example/rttp_async_file_client.cpp:148-171 | so does the writer's write, and the file on disk only grows |
| Downloader.EndMarkMeansWritten | example/rttp_async_file_client.cpp:151-152 | when the end mark is seen everything queued before it is on disk |
| Downloader.CompleteMeansWhole | example/rttp_async_file_client.cpp:165-169 | the writer declares the download complete exactly when all announced bytes have arrived and been written |
| DownloadReceiver.DownloadContext.OnRtsocketRead | example/rttp_async_file_client.cpp:184-298 | the in-place receiver ends where the chunks it was given take the value-level one; a connection not refused on the way is kept exactly when the last answer of `rt_recv` was -1, and given up for any other that brought nothing |
| DownloadReceiver.DownloadContext.ReceiveBody | example/rttp_async_file_client.cpp:242-267 | one body read makes one call of `rt_recv` and fills the buffer in place; a block is queued exactly when it has 256 KiB or ends the body |
| DownloadReceiver.DownloadContext.ReceiveHead | example/rttp_async_file_client.cpp:191-239 | one head line, byte by byte, is the value-level receiver on the same bytes; it is given up exactly for an answer of `rt_recv` that brings nothing and is not -1, for a line too long, or for a head that is no success |
| DownloadReceiver.DownloadContext.OnRtsocketError | example/rttp_async_file_client.cpp:310-319 | the error event as a step of the shared state |
| DownloadReceiver.DownloadContext.WriterTake | example/rttp_async_file_client.cpp:136-146 | the writer's take as a step of the shared state |
| DownloadReceiver.DownloadContext.WriterWrite | example/rttp_async_file_client.cpp:148-171 | the writer's write, short writes included |
| DownloadReceiver.LineRead | example/rttp_async_file_client.cpp:85-102 | what the line reader leaves in the buffer is what feeding the bytes singly leaves |
| EndToEnd.AcceptedGrows | example/rttp_asio_file_server.cpp:11-32 | no server event takes back a byte that was accepted |
| EndToEnd.HeadIsTheReply | example/rttp_async_file_client.cpp:204-211 | on a stream that begins with the reply the client reads exactly the reply as its head |
| EndToEnd.RunWorldKeeps | example/rttp_async_file_client.cpp:121-298 | server, file thread, transport, receivers and writers together keep the joint invariant along every interleaving |
| EndToEnd.DiskIsTheFile | example/rttp_async_file_client.cpp:121-298 | for every interleaving the client's disk is a prefix of the served file, and a download declared complete is the whole file |
| EndToEnd.NothingIsLostBetweenThreads | example/rttp_async_file_client.cpp:131-176 | for every interleaving body bytes received are disk, item held, items queued and receive buffer |
| EndToEnd.HeadIsKnown | example/rttp_async_file_client.cpp:204-211 | a client that has been given the whole reply head knows the size |
| EndToEnd.EverythingArrives | example/rttp_async_file_client.cpp:248-267 | when the server has sent all, the client has read all and the writer has emptied the queue, the download has been declared complete |
| WriterLimits.ToldExactlyWhenClosedInBody | example/rttp_async_file_client.cpp:273-319 | over every run, the end mark is queued, held or seen exactly when the connection was reported closed while the body was being read |
| WriterLimits.LeftRunningExactlyWhenNotTold | example/rttp_async_file_client.cpp:121-176 | over every run, the writer of a connection that is gone, with nothing queued or held, is still running exactly when the body is incomplete and that was not reported, or when a complete head announced nothing |
| WriterLimits.SettledForGood | example/rttp_async_file_client.cpp:131-150 | such a client does not change in any further run |
| WriterLimits.WriterIsLeftRunning | example/rttp_async_file_client.cpp:310-319 | a concrete run with the error event behind the reply head leaves the writer running for good |
| Progress.StuckExactlyAtStandstill | example/rttp_asio_file_server.cpp:50-146 | in every reachable world a transfer from the start of a non-empty file, the client's end alive and not complete, has a step that advances it exactly unless it is at a standstill; and one that does not report an orphaned failure, unless that is the next completion |
| Progress.StandstillMeans | example/rttp_asio_file_server.cpp:183-298 | when both ends have done all they can, the transfer is at a standstill exactly when the file thread has crashed or the full queue refused the connection's open or its read |
| EndToEnd.HttpCanDecode | example/rttp_async_file_client.cpp:205-211 | reading the digits behind `Content-Length` in base ten is a decoder as assumed |
| EndToEnd.ReadsReply | example/rttp_async_file_client.cpp:205-211 | that decoder reads the size of the file out of every 200 reply |
| Frames.Parse | example/rttp_async_ping_server.h:83-110 | cutting a stream into frames loses nothing, yields only well-formed frames and stops at an unfinished one or a bad length |
| Frames.Le32Digits | example/rttp_async_ping_server.h:83 | a length is read from four bytes, least significant first: the first byte is its remainder by 256, the others the quotient |
| Frames.LimitsAreInclusive | example/rttp_async_ping_server.h:83-88 | a frame of exactly the limit is admitted, one byte more is not |
| Frames.ParseUnique | example/rttp_async_ping_server.h:68-110 | there is only one such cutting |
| Frames.ParseAppend | example/rttp_async_ping_server.h:60-117 | parsing on continues from the remainder |
| Frames.ParseOfPrefix | example/rttp_async_ping_client.h:96-135 | any prefix of a stream of frames parses to a prefix of those frames |
| Frames.ParseMonotone | example/rttp_async_ping_client.h:75-137 | more bytes never change frames already found |
| Frames.ParseLimits | example/rttp_async_ping_client.h:96-101 | decoders that differ only in their limit agree while no frame exceeds the smaller one |
| PacketReader.Fill | example/rttp_async_ping_server.h:68-81 | filling up to a goal keeps buffer and stream in step, and stops short exactly for an answer of `rt_recv` that brings nothing, the last one used |
| PacketReader.ReceivePacket | example/rttp_async_ping_server.h:60-104 | one round of the nested loops delivers what the parse of the whole stream says comes next; it answers that the peer is gone exactly when `rt_recv` answered 0, and waits exactly for any other answer that brings nothing |
| EchoServer.FreshIsValid | example/rttp_async_ping_server.h:207-213 | a connection that has just come in satisfies the invariant |
| EchoServer.ConservedBytes | example/rttp_async_ping_server.h:54-117 | accepted bytes, unsent tails and the partial frame are the bytes received |
| EchoServer.OnRtsocketRead | example/rttp_async_ping_server.h:54-117 | for every chunking what is sent, queued and in the buffer are the bytes received, and queued bytes stay only because `rt_send` declined to take more; it returns when `rt_recv` brings nothing more, closes for an answer of 0, and otherwise only for a length below 4 or above 3000 |
| EchoServer.OnRtsocketWrite | example/rttp_async_ping_server.h:121-128 | so does sending on, which empties the queue or ends with an answer of `rt_send` that takes nothing |
| PingProtocol.Enc32 | example/rttp_async_ping_client.h:207-211 | the four bytes written decode to the number |
| PingProtocol.ErasedKeys | example/rttp_async_ping_client.h:123-128 | looking up and erasing numbers removes exactly those |
| PingProtocol.NothingMissed | example/rttp_async_ping_client.h:123 | distinct numbers that are all in the table are all found |
| PingProtocol.RecordedKeys | example/rttp_async_ping_client.h:222-225 | recording packets adds exactly their numbers |
| PingProtocol.RecordedSizes | example/rttp_async_ping_client.h:222-225 | each recorded packet leaves its size, and other entries stay |
| PingSystem.AnswersFollowPings | example/rttp_async_ping_client.h:70-138 | the packets answered on a connection are a prefix of those sent on it |
| PingSystem.SendsKeeps | example/rttp_async_ping_client.h:195-241 | starting packets on any connection keeps books, table and streams |
| PingSystem.FlushesKeeps | example/rttp_async_ping_client.h:141-146 | so does sending on |
| PingSystem.ServesKeeps | example/rttp_async_ping_server.h:54-117 | so does any work of an echo server with a limit of at least 1100 |
| PingSystem.ReceivesKeeps | example/rttp_async_ping_client.h:119-136 | so does looking up the packets received |
| PingSystem.RunInv | example/rttp_async_ping_client.h:70-241 | so does every run with fewer than 2^32 pings |
| PingSystem.TableIsTheUnanswered | example/rttp_async_ping_client.h:119-136 | over every such run, answers are a prefix of pings on each connection, the table holds exactly the numbers sent and not answered, each with the size of its packet, and no lookup ever creates an entry |
| PingClient.MakePacket | example/rttp_async_ping_client.h:203-211 | a packet carries its own length in its first four bytes and its number in the next four |
| PingClient.SendPingPacket | example/rttp_async_ping_client.h:195-241 | packets start only when nothing is queued, one `rt_send` each, numbered consecutively and recorded with their size; all but the last are accepted whole; the series is cut short only by a packet that was not |
| PingClient.OnRtsocketWrite | example/rttp_async_ping_client.h:141-146 | sending on moves accepted bytes along the packets started, until nothing is queued or `rt_send` takes nothing |
| PingClient.StrikeOff | example/rttp_async_ping_client.h:119-128 | a complete packet's number leaves the table and the buffer starts afresh |
| PingClient.OnRtsocketRead | example/rttp_async_ping_client.h:70-138 | the decode loop, which the TCP client repeats, is the receiving step of the composed system; it ends when `rt_recv` brings nothing more, closes exactly when that answer was 0, and stops the program for a bad length |
| TcpEcho.Session.HandleReadHead | tools/boost_tcp_echo_server.cpp:40-59 | the next read is for the announced body, and there is none after an error or a bad length |
| TcpEcho.Session.HandleReadBody | tools/boost_tcp_echo_server.cpp:61-92 | the frame joins the queue, and a write begins exactly when none is outstanding |
| TcpEcho.Session.HandleWrite | tools/boost_tcp_echo_server.cpp:94-123 | written bytes leave the front of the queue, and the next write begins exactly when something is left |
| TcpEcho.SessionEchoes | tools/boost_tcp_echo_server.cpp:32-123 | `sending_` holds exactly while something is queued and, short of a write error, exactly while one write is outstanding; written, queued and partial bytes are the bytes received; the session is an echo server with limit 4096 |
| UnityDecoder.CsIsParse | unity3d_demo/RttpDemo/Assets/Scripts/NetworkComm.cs:189-245 | the C# decoder delivers what a checking decoder does, up to the first frame of length four |
| UnityDecoder.Int32IsSigned | unity3d_demo/RttpDemo/Assets/Scripts/NetworkComm.cs:203-209 | `ToInt32` is the same number modulo 2^32, within the signed range |
| UnityDecoder.CsAgreesUnlessFour | unity3d_demo/RttpDemo/Assets/Scripts/NetworkComm.cs:216-224 | the two deliver the same exactly when there is no frame of length four |
| UnityDecoder.DecodersAgree | unity3d_demo/RttpDemo/Assets/Scripts/NetworkComm.cs:193-225 | on streams with lengths from 5 to 3000 the C++, TCP and C# decoders deliver the same frames and keep the same remainder |
| UnityDecoder.FourBlocks | unity3d_demo/RttpDemo/Assets/Scripts/NetworkComm.cs:203-209 | nothing behind a frame of length four is ever delivered |
| UnityDecoder.FourIsNeverDelivered | unity3d_demo/RttpDemo/Assets/Scripts/NetworkComm.cs:216-224 | the frame 4, 0, 0, 0 is delivered by a checking decoder and never by this one, whatever follows |
| UnityDecoder.UnityReceiver.RecvServerResponse | unity3d_demo/RttpDemo/Assets/Scripts/NetworkComm.cs:189-245 | the one-read loop delivers what its recursive reading of the stream says, for every chunking; it waits exactly when `rt_recv` answered -1, ends with any other answer that brings nothing, and throws only for a length below four or beyond the array |
| UnitySender.SendUserConserves | unity3d_demo/RttpDemo/Assets/Scripts/NetworkComm.cs:131-169 | a call moves bytes from queue to wire, and what a hard error makes it repeat is exactly what is too much |
| UnitySender.StreamIntactUnlessErrorMidPacket | unity3d_demo/RttpDemo/Assets/Scripts/NetworkComm.cs:160-167 | for every run accepted and pending bytes spell what was submitted since the last disconnect exactly when no event since has met a hard error with the front packet half sent |
| UnitySender.FirstByteGoesOutTwice | unity3d_demo/RttpDemo/Assets/Scripts/NetworkComm.cs:160-167 | two bytes submitted, one accepted, a hard error: three bytes go out |
| UnitySender.WaitsExactlyWhenDeclined | unity3d_demo/RttpDemo/Assets/Scripts/NetworkComm.cs:155-159 | for every run the client waits exactly when some call before was answered -1 |
| UnitySender.WaitingIsForever | unity3d_demo/RttpDemo/Assets/Scripts/NetworkComm.cs:135-159 | once the transport has answered -1 nothing is sent any more, across disconnects |
| UnitySender.OneRefusalSilencesTheClient | unity3d_demo/RttpDemo/Assets/Scripts/NetworkComm.cs:135-159 | a client whose first send is answered -1 never sends a byte, whatever follows |
| UnitySender.UnitySendQueue.SendUserData | unity3d_demo/RttpDemo/Assets/Scripts/NetworkComm.cs:131-169 | the in-place loop is that function, resume position included |
| UnitySender.UnitySendQueue.SendData | unity3d_demo/RttpDemo/Assets/Scripts/NetworkComm.cs:390-399 | queueing data is the submitting step of a run |
| UnitySender.UnitySendQueue.DoDisconnect | unity3d_demo/RttpDemo/Assets/Scripts/NetworkComm.cs:373-381 | disconnecting forgets the queue and keeps the waiting flag |
| UnityUdp.HandOff | unity3d_demo/RttpDemo/Assets/Scripts/NetworkComm.cs:304-324 | for every interleaving `s_udp_sending` holds exactly while one completion is outstanding, the queue is empty while it is down, and sends begin in the order given, once each |
| UnityUdp.NothingDroppedWithoutDisconnect | unity3d_demo/RttpDemo/Assets/Scripts/NetworkComm.cs:171-187 | without a disconnect every datagram is started or waits, in the order given |
| UnityUdp.NothingIgnored | unity3d_demo/RttpDemo/Assets/Scripts/NetworkComm.cs:171-187 | every datagram the library sends during an event is given to the queue |
| UnityUdp.CompletionsDrain | unity3d_demo/RttpDemo/Assets/Scripts/NetworkComm.cs:304-324 | one completion for each, and everything that waits is started |
| UnityUdp.ClearKeeps | unity3d_demo/RttpDemo/Assets/Scripts/NetworkComm.cs:373-388 | a disconnect drops exactly the datagrams still queued |
| UnityUdp.DisconnectDrops | unity3d_demo/RttpDemo/Assets/Scripts/NetworkComm.cs:373-388 | after the worker has handled a disconnect nothing waits, and nothing was started meanwhile but a first datagram that found no send outstanding |
| UnityUdp.WorkKeeps | unity3d_demo/RttpDemo/Assets/Scripts/NetworkComm.cs:406-448 | the worker's handling of one message keeps all of that |
| UnityUdp.UnityUdpClient.SendDataImp | unity3d_demo/RttpDemo/Assets/Scripts/NetworkComm.cs:171-187 | a datagram is started only when no completion is outstanding |
| UnityUdp.UnityUdpClient.SendPacketInUDPQueue | unity3d_demo/RttpDemo/Assets/Scripts/NetworkComm.cs:304-314 | the next queued datagram is started |
| UnityUdp.UnityUdpClient.OnUdpSend | unity3d_demo/RttpDemo/Assets/Scripts/NetworkComm.cs:316-324 | a completion becomes a message |
| UnityUdp.UnityUdpClient.TakeMessage | unity3d_demo/RttpDemo/Assets/Scripts/NetworkComm.cs:406-448 | one message handled in place is the worker's step |
| UvQueue.InOrderOnce | example/rttp_libuv_ping_server.cpp:46-59 | for every run `sending` holds exactly while something is queued, the request is in use for the front datagram only, and datagrams are offered in order, once, each with its own address |
| UvQueue.NothingIgnored | example/rttp_libuv_ping_server.cpp:93-110 | over every run what was given to the queue is what the events gave, in order |
| UvQueue.CompletionsDrain | example/rttp_libuv_ping_server.cpp:46-59 | while nothing is refused, one completion for each takes everything that waits |
| UvQueue.RefusedFirstSendDropsIt | example/rttp_libuv_ping_server.cpp:100-109 | a refused first send drops exactly that datagram |
| UvQueue.DeadExactlyWhenChainRefused | example/rttp_libuv_ping_server.cpp:53-58 | the queue claims to be sending with nothing outstanding exactly when some chained send was refused |
| UvQueue.DeadForever | example/rttp_libuv_ping_server.cpp:53-58 | from then on nothing is offered any more |
| UvQueue.OneChainedRefusalKills | example/rttp_libuv_ping_server.cpp:53-58 | two datagrams, the second refused behind the first: dead for every run that follows |
| UvQueue.NothingLostExactlyUnlessRefused | tools/rttp_pressure_test_client.cpp:109-126 | for every run everything offered has been taken exactly when no offer made, first or chained, was refused |
| UvQueue.UvSender.UdpSendCallback | tools/rttp_pressure_test_client.cpp:44-57 | the callback in place, its request free when it is used again |
| UvQueue.UvSender.MyPacketSendImp | example/rttp_libuv_ping_server.cpp:93-110 | the send function in place; the one request is never submitted while in use |
| AsioQueue.InOrderOnce | example/rttp_asio_file_server.cpp:368-390 | for every run a send is outstanding exactly while `sending_`, sends begin in order and once, and while the server runs nothing waits without one |
| AsioQueue.NothingIgnored | example/rttp_asio_file_server.cpp:622-631 | over every run what was given to the queue is what the events gave, in order |
| AsioQueue.CompletionsDrain | example/rttp_asio_file_server.cpp:368-390 | while the server runs, one completion for each sends everything that waits |
| AsioQueue.WellDirectedWhen | example/rttp_asio_file_server.cpp:375-377 | all datagrams went to their own address exactly when no send began for one peer while another was heard last |
| AsioQueue.TwoPeersGoAstray | example/rttp_asio_file_server.cpp:375-377 | two peers suffice for a datagram to go astray |
| AsioQueue.AsioSender.PacketSendImp | example/rttp_asio_file_server.cpp:622-631 | queueing and sending in place |
| AsioQueue.AsioSender.SendCompleted | example/rttp_asio_file_server.cpp:378-389 | the completion handler in place |
| SelectQueue.NothingLostOrRepeated | example/rttp_async_ping_server.h:159-193 | for every run each datagram is on the wire or in the queue, once |
| SelectQueue.InOrderMeansGiven | example/rttp_async_ping_server.h:159-193 | in order, the datagrams on the wire and then those queued are the datagrams given, payload and address included |
| SelectQueue.DrainedEnds | example/rttp_async_ping_server.h:179-194 | a round sends from the front, in order, until the queue is empty or `sendto` refuses |
| SelectQueue.NothingIgnored | example/rttp_async_ping_server.h:159-176 | over every run as many datagrams are counted as were given |
| SelectQueue.InOrderExactlyWithoutOvertaking | example/rttp_async_ping_client.h:179-193 | datagrams reach the wire in order exactly when none is sent directly while others are queued |
| SelectQueue.SecondOvertakesFirst | example/rttp_async_ping_client.h:179-193 | two datagrams suffice for the second to reach the wire first |
| SelectQueue.SelectSender.PacketSendImp | example/rttp_async_ping_server.h:159-176 | the direct send in place |
| SelectQueue.SelectSender.DoUdpSend | example/rttp_async_ping_server.h:179-194 | the loop over the queue in place |
| Pacing.SecondClosedForm | tools/rttp_pressure_test_client.cpp:77-99 | with C packets budgeted the first 200 - C % 200 ticks that find connections attempt C / 200 packets and the others one more, wherever ticks without connections lie in between; the budget is never negative, is spent exactly when the time is up, and the second attempts C |
| Pacing.WholeSeconds | tools/rttp_pressure_test_client.cpp:74-99 | over whole seconds of ticks with connections, others in between, the packets attempted are the sum of the budgets |
| Pacing.TickShares | tools/rttp_pressure_test_client.cpp:83-96 | one tick inside a second takes exactly its share |
| Pacing.EmptyTicksDropOut | tools/rttp_pressure_test_client.cpp:77 | with all ticks without connections taken out, a run ends in the same state and attempts the same number of packets |
| Pacing.Pacer.TimerCallback | tools/rttp_pressure_test_client.cpp:74-99 | the counters in place; products stay inside `int`, and indices inside the socket list |
| Tokenizer.SplitString | example/os_common.h:223-243 | it ends and yields every maximal run of characters that are not white space, once and in order |
| Tokenizer.WhiteIs | example/os_common.h:225 | space, tab, newline, carriage return and form feed separate, and nothing else |
| Tokenizer.RunsAreUnique | example/os_common.h:229-242 | a text has only one such list of runs |
| Tokenizer.SplitOfJoin | example/os_common.h:223-243 | splitting words joined by single spaces yields those words and nothing else |
| Tokenizer.PiecesAreTokens | example/os_common.h:231-241 | every piece is non-empty and free of white space |

## Left out

- The RTTP library: retransmission, error correction, windows and its state text are in a binary; only its documented return values are used.
- HttpRequest, HttpResponseHead and DecodeHttpRequestRangeLine: http.h and http.cpp are not part of this model; a decoder is a parameter.
- FileServer.NextKeeps: a second request on a connection. The read handler acts on it, as OnRtsocketRead says, with `request_lines_` never cleared and the position of the transfer overwritten. The runs of the whole server stop short of it; `SecondRequest` follows one connection through any number of requests, without the file thread.
- Range downloads end to end: the 206 reply announces the whole file's size, so only the server's stream is described for them.
- A success reply of content length 0: the receiver then waits for another head and starts a second writer; `Stranded` marks that state and the model stops there.
- Progress.StuckExactlyAtStandstill: states that an advancing step can be taken, not that a scheduler takes it; the step may have to report another client's orphaned failure, and then the file thread crashes.
- FileServer.RunKeeps: the destructor's close, the exit operation, `client_map_` and the working directory are not modelled.
- PingSystem.TableIsTheUnanswered: connections are opened and never erased, and send times, latencies and the average are not modelled; the table keeps sizes.
- UnityUdp.HandOff: exceptions thrown by `BeginSend` and `EndReceive`, and reconnecting without a disconnect, are not modelled.
- UnityDecoder.UnityReceiver.RecvServerResponse: an announced length is taken to be allocatable; running out of memory is not modelled.
- Pacing.Pacer.TimerCallback: whether a packet attempted is sent is the ping client's affair; statistics and the clock are not modelled.
- Memory management, console output, socket creation, select, libuv and asio loops, name lookup, the mobile demos, the Unity scene code and the build files.
