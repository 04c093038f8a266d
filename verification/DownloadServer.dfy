/** The objects of the file server: `async_file_server` and `download_file_client`, their fields
    updated in place.  Each method is proved equal to the function the theorems are about. */
module DownloadServer {
  import opened Streams
  import opened Transport
  import opened HttpText
  import opened DownloadClient
  import opened DownloadSteps
  import opened FileThread
  import opened FileServer
  import opened LineReader

  /** What the HTTP library makes of a request head: a file below the work path and an offset, or
      the message of a 400 reply. */
  datatype Decoded = Get(file: Path, offset: nat) | Undecodable(message: seq<byte>)

  type Decoder = seq<byte> -> Decoded

  /** What a complete head leads to. */
  function HeadOutcome(c: ClientId, cl: Client, decoded: Decoded, plan: seq<int>): Outcome {
    match decoded
    case Undecodable(message) => OnBadRequest(c, cl, message, plan)
    case Get(file, offset) => OnRequest(c, cl, file, offset).(plan := plan)
  }

  /** What the complete heads of one call lead to, one after the other.  Each is decoded together with
      all lines kept before it, `kept` from earlier calls and the heads in front. */
  function HeadsOutcome(c: ClientId, cl: Client, decode: Decoder, kept: seq<byte>, heads: seq<seq<byte>>,
                        plan: seq<int>): Outcome
    decreases |heads|
  {
    if heads == [] then Outcome(cl, [], plan)
    else
      var before := HeadsOutcome(c, cl, decode, kept, heads[..|heads| - 1], plan);
      var last := HeadOutcome(c, before.cl, decode(kept + Join(heads)), before.plan);
      last.(ops := before.ops + last.ops)
  }

  /** The same when the connection turns out to be closed straight after. */
  function ThenClosed(c: ClientId, o: Outcome): Outcome {
    var end := CloseClient(c, o.cl, o.plan);
    end.(ops := o.ops + end.ops)
  }

  /** What one round of the read loop leads to. */
  function RoundOutcome(c: ClientId, o: Outcome, outcome: HeadRead, decoded: Decoded): Outcome {
    match outcome
    case Complete => HeadOutcome(c, o.cl, decoded, o.plan)
    case Gone => CloseClient(c, o.cl, o.plan)
    case Wait => Outcome(o.cl, [], o.plan)
  }

  lemma PushTwice(queue: seq<FileOp>, a: seq<FileOp>, b: seq<FileOp>)
    ensures var q := PushOps(queue, a);
            PushOps(queue, a + b) == (PushOps(q.0, b).0, q.1 + PushOps(q.0, b).1)
  {
    var room := if |queue| < OP_QUEUE then OP_QUEUE - |queue| else 0;
    var q := PushOps(queue, a);
    if room < |a| {
      assert (a + b)[..room] == a[..room] && (a + b)[room..] == a[room..] + b;
      assert Min(|a + b|, room) == room && q == (queue + a[..room], a[room..]);
      assert PushOps(q.0, b) == (q.0 + b[..0], b[0..]);
      assert q.0 + b[..0] == q.0 && b[0..] == b;
    } else {
      var more := Min(|b|, room - |a|);
      assert (a + b)[..|a| + more] == a + b[..more] && (a + b)[|a| + more..] == b[more..];
      assert a[..|a|] == a && a[|a|..] == [] && Min(|a + b|, room) == |a| + more;
      assert q == (queue + a, []) && [] + b[more..] == b[more..];
      assert queue + (a + b[..more]) == queue + a + b[..more];
      assert PushOps(q.0, b) == (queue + a + b[..more], b[more..]);
    }
  }

  lemma PushMore(queue: seq<FileOp>, lost: set<FileOp>, a: seq<FileOp>, b: seq<FileOp>)
    ensures var q := PushOps(queue, a);
      && PushOps(queue, a + b).0 == PushOps(q.0, b).0
      && lost + (set op | op in q.1) + (set op | op in PushOps(q.0, b).1)
         == lost + (set op | op in PushOps(queue, a + b).1)
  {
    PushTwice(queue, a, b);
    hide PushOps;
  }

  /** `async_file_server`.  `lost` records what the full queue refused and `faulted`
      the use of a null handle. */
  class AsyncFileServer {
    var opQueue: seq<FileOp>
    var files: map<Path, Handle>
    var posted: seq<Posted>
    ghost var lost: set<FileOp>
    ghost var faulted: bool

    constructor ()
      ensures opQueue == [] && files == map[] && posted == [] && lost == {} && !faulted
    {
      opQueue, files, posted := [], map[], [];
      lost, faulted := {}, false;
    }

    ghost function ThreadView(): Thread
      reads this
    {
      Thread(files, faulted)
    }

    /** What pushing the operations makes of the queue and of what is lost. */
    twostate predicate Queues(more: seq<FileOp>)
      reads this
    {
      && opQueue == PushOps(old(opQueue), more).0
      && lost == old(lost) + (set op | op in PushOps(old(opQueue), more).1)
    }

    /** `file_op_queue_.push`: a full ring refuses, and the caller does not look. */
    method Push(op: FileOp)
      modifies `opQueue, `lost
      ensures Queues([op])
    {
      PushedOrRefused(opQueue, [op]);
      if |opQueue| < OP_QUEUE {
        opQueue := opQueue + [op];
      } else {
        lost := lost + {op};
      }
    }

    method AsyncOpenFile(initiator: ClientId, path: Path)
      modifies `opQueue, `lost
      ensures Queues([Open(initiator, path)])
    {
      Push(Open(initiator, path));
    }

    method AsyncReadFile(initiator: ClientId, handle: Path, offset: nat, size: nat)
      modifies `opQueue, `lost
      ensures Queues([Read(initiator, handle, offset, size)])
    {
      Push(Read(initiator, handle, offset, size));
    }

    method AsyncCloseFile(initiator: ClientId, handle: Option<Path>)
      modifies `opQueue, `lost
      ensures Queues([Close(initiator, handle)])
    {
      Push(Close(initiator, handle));
    }

    /** One round of `file_access_thread_proc` with something in the queue: `n` is what `fread`
        would deliver. */
    method FileAccessRound(disk: Disk, n: nat)
      requires opQueue != [] && !faulted
      modifies this
      ensures var r := Exec(disk, old(ThreadView()), old(opQueue)[0], n);
              ThreadView() == r.thread && posted == old(posted) + r.posted
      ensures opQueue == old(opQueue)[1..] && lost == old(lost)
    {
      var op := opQueue[0];
      opQueue := opQueue[1..];
      match op {
        case Read(c, p, offset, size) =>
          if p !in files {
            faulted := true;
          } else if c !in files[p].operators {
            posted := posted + [ReadDone(c, None)];
          } else if !files[p].open || p !in disk {
            faulted := true;
          } else {
            posted := posted + [ReadDone(c, FRead(disk[p], offset, size, n))];
          }
        case Open(c, p) =>
          if p !in files {
            files := files[p := Handle(false, 0, {})];
          }
          var h := files[p];
          if !h.open {
            if p in disk {
              files := files[p := Handle(true, |disk[p]|, h.operators + {c})];
              posted := posted + [OpenDone(c, Some(p), |disk[p]|)];
            } else {
              posted := posted + [OpenDone(c, None, 0)];
            }
          } else {
            files := files[p := h.(operators := h.operators + {c})];
            posted := posted + [OpenDone(c, Some(p), h.size)];
          }
          assert ThreadView().files == Exec(disk, old(ThreadView()), op, n).thread.files;
        case Close(c, handle) =>
          if handle.None? || handle.value !in files {
            faulted := true;
          } else {
            var h := files[handle.value];
            var left := h.operators - {c};
            if left == {} && !h.open {
              faulted := true;
            } else {
              files := files[handle.value := if left == {} then Handle(false, h.size, {}) else h.(operators := left)];
            }
          }
      }
    }
  }

  /** `download_file_client`. */
  class DownloadFileClient {
    const id: ClientId
    const socket: RtSocket            // rttp_socket_; not live once it is closed and zeroed
    const io: SocketIo                // the inherited socket_io_info
    const fileServer: AsyncFileServer
    var reqFilePos: nat
    var curFilePos: nat
    var readingFile: bool
    var handle: Option<Path>
    var fileSize: nat
    var requestLines: seq<byte>
    ghost var requested: bool
    ghost var path: Path
    ghost var started: bool
    ghost var head: seq<byte>
    ghost var abandoned: bool
    ghost var behind: nat             // bytes of requestLines that belong to complete heads

    constructor (id: ClientId, socket: RtSocket, io: SocketIo, fileServer: AsyncFileServer)
      requires socket.live && socket.accepted == [] && io.sendDeq == [] && io.state == Idle
      requires socket.received == [] && io.recvBuffer == null && io.recvPos == 0
      ensures ReadingHead() && DeqOk(io.sendDeq) && handle == None
      ensures this.id == id && this.socket == socket && this.io == io && this.fileServer == fileServer
      ensures Abs() == NewClient() && requestLines == []
    {
      requestLines := [];
      this.id, this.socket, this.io, this.fileServer := id, socket, io, fileServer;
      reqFilePos, curFilePos, readingFile, handle, fileSize := 0, 0, false, None, 0;
      requested, path, started, head, abandoned, behind := false, "", false, [], false, 0;
    }

    ghost function Abs(): Client
      reads this, socket, io
    {
      Client(reqFilePos, curFilePos, readingFile, handle, fileSize,
             if DeqOk(io.sendDeq) then io.sendDeq else [], io.state == WaitingClose, socket.live,
             socket.accepted, requested, path, started, head, abandoned)
    }

    /** The state a handler leaves behind, queue and send script included. */
    twostate predicate Did(o: Outcome)
      reads this, socket, io, fileServer
    {
      && DeqOk(io.sendDeq)
      && Abs() == o.cl
      && socket.sendPlan == o.plan
      && fileServer.Queues(o.ops)
    }

    /** What is queued has been offered, until the queue was empty or the library declined. */
    ghost predicate Tried(sends: seq<int>)
      reads socket, io
    {
      if io.sendDeq == [] then Gave(sends, socket.sends) else exists n :: Declined(sends, socket.sends, n)
    }

    method AsyncReadFile()
      requires DeqOk(io.sendDeq)
      modifies this`readingFile, fileServer`opQueue, fileServer`lost
      ensures Did(StartRead(id, old(Abs()), old(socket.sendPlan)))
    {
      hide PushOps;
      NothingPushed(fileServer.opQueue, fileServer.lost);
      if handle == None || readingFile || curFilePos >= fileSize {
        return;
      }
      var buffSize := Min(READ_BLOCK, fileSize - curFilePos);
      readingFile := true;
      fileServer.AsyncReadFile(id, handle.value, curFilePos, buffSize);
    }

    method Close()
      requires DeqOk(io.sendDeq)
      modifies this`handle, this`abandoned, socket`live, fileServer`opQueue, fileServer`lost
      ensures Did(CloseClient(id, old(Abs()), old(socket.sendPlan)))
      ensures old(ReadingHead()) ==> ReadingHead()
    {
      hide PushOps, NoLf, OpenLines;
      NothingPushed(fileServer.opQueue, fileServer.lost);
      abandoned := abandoned || (socket.live && requested && !started && io.state != WaitingClose);
      if handle != None {
        fileServer.AsyncCloseFile(id, handle);
        handle := None;
      }
      if socket.live {
        socket.Close();
      }
    }

    /** Queue a buffer and send what goes. */
    method PushAndSend(data: Block)
      requires DeqOk(io.sendDeq)
      modifies io`sendDeq, socket`sendPlan, socket`sends, socket`accepted
      ensures DeqOk(io.sendDeq) && Tried(old(socket.sends))
      ensures Abs() == Sent(DownloadClient.Push(old(Abs()), data), old(socket.sendPlan))
      ensures socket.sendPlan == PlanLeft(DownloadClient.Push(old(Abs()), data), old(socket.sendPlan))
    {
      hide Flush;
      io.sendDeq := io.sendDeq + [SendItem(data, 0)];
      var _ := RtsocketSendData(socket, io);
    }

    /** The end of both write handlers. */
    method FinishOrReadOn()
      requires DeqOk(io.sendDeq)
      modifies this`readingFile, this`handle, this`abandoned, socket`live, fileServer`opQueue, fileServer`lost
      ensures Did(Continue(id, old(Abs()), old(socket.sendPlan)))
    {
      hide PushOps;
      NothingPushed(fileServer.opQueue, fileServer.lost);
      if fileSize > 0 && curFilePos == fileSize && |io.sendDeq| == 0 {
        Close();
      } else if |io.sendDeq| < 3 {
        AsyncReadFile();
      }
    }

    /** The failure branch of `handle_read_file_complete`. */
    method GiveUp()
      requires DeqOk(io.sendDeq)
      modifies this, socket`sendPlan, socket`sends, socket`accepted, socket`live, io`sendDeq, io`state, fileServer
      ensures Did(OnReadDone(id, old(Abs()), None, old(socket.sendPlan)))
    {
      hide PushOps;
      NothingPushed(fileServer.opQueue, fileServer.lost);
      readingFile := false;
      fileServer.AsyncCloseFile(id, handle);
      handle := None;
      Close();
    }

    /** `handle_read_file_complete`: what it says to the connection, and what the block becomes. */
    method HandleReadFileComplete(data: Option<Block>)
      requires DeqOk(io.sendDeq)
      modifies this, socket`sendPlan, socket`sends, socket`accepted, socket`live, io`sendDeq, io`state, fileServer
      ensures Did(OnReadDone(id, old(Abs()), data, old(socket.sendPlan))) && (data.Some? ==> Tried(old(socket.sends)))
      ensures data.Some? ==>
        && socket.accepted + Unsent(io.sendDeq) == old(socket.accepted) + Unsent(old(io.sendDeq)) + data.value
        && curFilePos == old(curFilePos) + |data.value|
      ensures data.None? ==> handle == None && !socket.live
    {
      hide Unsent, OnReadDone, PushOps, Tried;
      ReadMeans(id, Abs(), data, socket.sendPlan);
      FinishRead(data);
    }

    method FinishRead(data: Option<Block>)
      requires DeqOk(io.sendDeq)
      modifies this, socket`sendPlan, socket`sends, socket`accepted, socket`live, io`sendDeq, io`state, fileServer
      ensures Did(OnReadDone(id, old(Abs()), data, old(socket.sendPlan))) && (data.Some? ==> Tried(old(socket.sends)))
    {
      hide Flush, Sent, PlanLeft, DownloadClient.Push, Continue, CloseClient, PushOps;
      match data {
        case Some(bytes) =>
          readingFile := false;
          PushAndSend(bytes);
          ghost var sends, deq := socket.sends, io.sendDeq;
          curFilePos := curFilePos + |bytes|;
          FinishOrReadOn();
          assert socket.sends == sends && io.sendDeq == deq;
        case None =>
          GiveUp();
      }
    }

    method Refuse(reply: Block)
      requires DeqOk(io.sendDeq)
      modifies this`head, this`handle, this`abandoned, fileServer`opQueue, fileServer`lost
      modifies socket`sendPlan, socket`sends, socket`accepted, socket`live, io`sendDeq, io`state
      ensures Did(DownloadClient.Refuse(id, old(Abs()), reply, old(socket.sendPlan))) && Tried(old(socket.sends))
    {
      hide PushOps;
      NothingPushed(fileServer.opQueue, fileServer.lost);
      hide Flush;
      head := reply;
      io.state := WaitingClose;
      PushAndSend(reply);
      if |io.sendDeq| == 0 {
        Close();
      }
    }

    /** `handle_open_file_complete`: what it does to the connection, and the reply it gives. */
    method HandleOpenFileComplete(found: Option<Path>, size: nat)
      requires DeqOk(io.sendDeq)
      modifies this, socket`sendPlan, socket`sends, socket`accepted, socket`live, io`sendDeq, io`state, fileServer
      ensures Did(OnOpenDone(id, old(Abs()), found, size, old(socket.sendPlan))) && Tried(old(socket.sends))
      ensures socket.accepted + Unsent(io.sendDeq)
           == old(socket.accepted) + Unsent(old(io.sendDeq))
              + (if found.Some? then ReplyHead(reqFilePos, size) else NotFoundReply())
      ensures found.Some? ==> handle == found && fileSize == size
    {
      hide Unsent, OnOpenDone, PushOps, Tried, ReplyHead, NotFoundReply;
      OpenMeans(id, Abs(), found, size, socket.sendPlan);
      FinishOpen(found, size);
    }

    method FinishOpen(found: Option<Path>, size: nat)
      requires DeqOk(io.sendDeq)
      modifies this, socket`sendPlan, socket`sends, socket`accepted, socket`live, io`sendDeq, io`state, fileServer
      ensures Did(OnOpenDone(id, old(Abs()), found, size, old(socket.sendPlan))) && Tried(old(socket.sends))
    {
      hide Flush, Sent, PlanLeft, DownloadClient.Push, StartRead, ReplyHead, NotFoundReply;
      if found != None {
        handle := found;
        fileSize := size;
        started := true;
        var respHead := ReplyHead(reqFilePos, size);
        head := respHead;
        PushAndSend(respHead);
        AsyncReadFile();
      } else {
        Refuse(NotFoundReply());
      }
    }

    method OnRtsocketWrite()
      requires DeqOk(io.sendDeq)
      modifies this, socket`sendPlan, socket`sends, socket`accepted, socket`live, io`sendDeq, io`state, fileServer
      ensures Did(OnWritable(id, old(Abs()), old(socket.sendPlan))) && Tried(old(socket.sends))
    {
      hide PushOps;
      NothingPushed(fileServer.opQueue, fileServer.lost);
      hide Flush;
      var _ := RtsocketSendData(socket, io);
      if io.state == WaitingClose && |io.sendDeq| == 0 {
        Close();
        return;
      }
      FinishOrReadOn();
    }

    /** A decoded request head. */
    method StartDownload(file: Path, offset: nat)
      requires DeqOk(io.sendDeq)
      modifies this`reqFilePos, this`curFilePos, this`path, this`requested, fileServer`opQueue, fileServer`lost
      ensures Did(OnRequest(id, old(Abs()), file, offset).(plan := old(socket.sendPlan)))
    {
      reqFilePos := offset;
      curFilePos := offset;
      requested := true;
      path := file;
      fileServer.AsyncOpenFile(id, file);
    }

    /** A head that does not decode. */
    method RejectRequest(message: seq<byte>)
      requires DeqOk(io.sendDeq)
      modifies this`requested, this`head, this`handle, this`abandoned, fileServer`opQueue, fileServer`lost
      modifies socket`sendPlan, socket`sends, socket`accepted, socket`live, io`sendDeq, io`state
      ensures Did(OnBadRequest(id, old(Abs()), message, old(socket.sendPlan))) && Tried(old(socket.sends))
    {
      requested := true;
      Refuse(BadRequestReply(message));
    }

    /** Between two calls: all lines received, complete heads first, and the start of a line. */
    ghost predicate ReadingHead()
      reads this, socket, io, io.recvBuffer
    {
      && (if io.recvBuffer == null then io.recvPos == 0 else LineBufferOk(io))
      && NoLf(io.Filled())
      && socket.received == requestLines + io.Filled()
      && behind <= |requestLines| && OpenLines(requestLines[behind..])
    }

    method AllocateLine()
      requires ReadingHead()
      modifies io`recvBuffer, io`recvPos, io`recvLen
      ensures ReadingHead() && LineBufferOk(io) && (io.recvBuffer == old(io.recvBuffer) || fresh(io.recvBuffer))
      ensures Abs() == old(Abs())
    {
      if io.recvBuffer == null {
        io.recvPos := 0;
        io.recvLen := LINE_BUFFER;
        io.recvBuffer := new byte[LINE_BUFFER];
        assert io.Filled() == [];
      }
    }

    /** A complete head: the start of a download, or a refusal. */
    method OnHead(decode: Decoder) returns (more: bool)
      requires DeqOk(io.sendDeq)
      modifies this`reqFilePos, this`curFilePos, this`path, this`requested, this`head, this`handle, this`abandoned
      modifies fileServer`opQueue, fileServer`lost
      modifies socket`sendPlan, socket`sends, socket`accepted, socket`live, io`sendDeq, io`state
      ensures Did(HeadOutcome(id, old(Abs()), decode(requestLines), old(socket.sendPlan)))
      ensures (more <==> decode(requestLines).Get?) && (!more ==> Tried(old(socket.sends)))
      ensures (old(ReadingHead()) ==> ReadingHead()) && (old(LineBufferOk(io)) ==> LineBufferOk(io))
    {
      hide DownloadClient.Refuse, OnRequest, OnBadRequest, PushOps, NoLf, OpenLines;
      match decode(requestLines) {
        case Undecodable(message) =>
          RejectRequest(message);
          more := false;
        case Get(file, offset) =>
          StartDownload(file, offset);
          more := true;
      }
    }

    /** Before the next head is complete: what has been received, and that it is not complete yet. */
    method ReadHead() returns (outcome: HeadRead, ghost head: seq<byte>)
      requires ReadingHead() && LineBufferOk(io)
      modifies this`requestLines, this`behind, io`recvPos, io.recvBuffer
      modifies socket`recvPlan, socket`recvs, socket`arriving, socket`received, socket`log
      ensures ReadingHead() && LineBufferOk(io) && Abs() == old(Abs()) && behind <= |requestLines|
      ensures socket.received + socket.arriving == old(socket.received) + old(socket.arriving)
      ensures outcome.Complete? ==>
        && HeadEnds(head, |head|) && io.Filled() == []
        && requestLines == old(requestLines[..behind]) + head && behind == |requestLines|
      ensures |socket.arriving| <= |old(socket.arriving)| - if outcome.Complete? then 1 else 0
      ensures !outcome.Complete? ==>
        && head == [] && behind == old(behind) && requestLines[..behind] == old(requestLines[..behind])
        && NoBlank(socket.received[behind..])
      ensures outcome.Complete? ==> Gave(old(socket.recvs), socket.recvs)
      ensures !outcome.Complete? ==> Stopped(old(socket.recvs), socket.recvs, io.recvPos == LINE_BUFFER, outcome)
    {
      hide NoLf, HeadEnds, NoBlank, IsLine, BlankAt, Gave, Stopped;
      ghost var done := requestLines[..behind];
      outcome, requestLines := ReadRequestHead(socket, io, requestLines, behind);
      head := [];
      assert requestLines[..behind] == done;
      assert socket.received[behind..] == requestLines[behind..] + io.Filled();
      if outcome.Complete? {
        head := requestLines[behind..];
        behind := |requestLines|;
        NothingIsOpen(requestLines);
      }
    }

    /** One round of the loop in `on_rtsocket_read`: the next head, if it is complete. */
    method Round(decode: Decoder) returns (outcome: HeadRead, ghost head: seq<byte>, more: bool)
      requires DeqOk(io.sendDeq) && ReadingHead() && LineBufferOk(io)
      modifies this, socket, io, fileServer, io.recvBuffer
      ensures ReadingHead() && LineBufferOk(io) && io.recvBuffer == old(io.recvBuffer)
      ensures socket.received + socket.arriving == old(socket.received) + old(socket.arriving)
      ensures requestLines[..behind] == old(requestLines[..behind]) + head
      ensures |socket.arriving| <= |old(socket.arriving)| - if more then 1 else 0
      ensures more ==> outcome.Complete?
      ensures outcome.Complete? ==>
        && HeadEnds(head, |head|) && (more <==> decode(requestLines[..behind]).Get?)
        && Did(HeadOutcome(id, old(Abs()), decode(requestLines[..behind]), old(socket.sendPlan)))
      ensures !outcome.Complete? ==> head == [] && NoBlank(socket.received[behind..])
      ensures outcome.Gone? ==> Did(CloseClient(id, old(Abs()), old(socket.sendPlan)))
      ensures outcome.Wait? ==> Did(Outcome(old(Abs()), [], old(socket.sendPlan)))
      ensures outcome.Complete? ==> Gave(old(socket.recvs), socket.recvs)
      ensures !outcome.Complete? ==> Stopped(old(socket.recvs), socket.recvs, io.recvPos == LINE_BUFFER, outcome)
    {
      hide HeadOutcome, CloseClient, HeadEnds, NoBlank, NoLf, OpenLines, PushOps, Gave, Stopped, Tried;
      hide LineBufferOk, ReadingHead, Abs, DeqOk;
      NothingPushed(fileServer.opQueue, fileServer.lost);
      more := false;
      outcome, head := ReadHead();
      if outcome.Complete? {
        WholeLines(requestLines);
        more := OnHead(decode);
      } else if outcome.Gone? {
        Close();
      }
    }

    /** The loop of `on_rtsocket_read`.  Whatever chunks the bytes came in, they are cut into heads
        at their blank lines; the connection acts on each head once, in order, on all lines kept so
        far, and stops behind one it refuses.  Otherwise it reads until the library has nothing more:
        it waits for "would block", and is closed for anything else, or for a line too long. */
    method ReadHeads(decode: Decoder) returns (ghost heads: seq<seq<byte>>, ghost closed: bool)
      requires DeqOk(io.sendDeq) && ReadingHead()
      modifies this, socket, io, fileServer, io.recvBuffer
      ensures ReadingHead() && DeqOk(io.sendDeq)
      ensures socket.received + socket.arriving == old(socket.received) + old(socket.arriving)
      ensures requestLines[..behind] == old(requestLines[..behind]) + Join(heads)
      ensures AllHeads(heads) && AllButLastGet(decode, old(requestLines[..behind]), heads)
      ensures (heads != [] && decode(requestLines[..behind]).Undecodable?) || NoBlank(socket.received[behind..])
      ensures if heads != [] && decode(requestLines[..behind]).Undecodable?
              then !closed && Gave(old(socket.recvs), socket.recvs)
              else Stopped(old(socket.recvs), socket.recvs, io.recvPos == LINE_BUFFER, if closed then Gone else Wait)
      ensures var o := HeadsOutcome(id, old(Abs()), decode, old(requestLines[..behind]), heads, old(socket.sendPlan));
              Did(if closed then ThenClosed(id, o) else o)
    {
      hide HeadsOutcome, CloseClient, HeadEnds, NoBlank, NoLf, OpenLines, PushOps, Abs, Join, HeadOutcome;
      hide AllButLastGet, AllHeads, Gave, Stopped;
      NothingAsked(socket.recvs);
      heads, closed := [], false;
      ghost var kept := requestLines[..behind];
      ghost var cl, plan := Abs(), socket.sendPlan;
      ghost var queue, lost := fileServer.opQueue, fileServer.lost;
      ghost var o, end := Outcome(cl, [], plan), Outcome(cl, [], plan);
      AllocateLine();
      NoHeads(id, cl, decode, kept, plan);
      NothingPushed(queue, lost);
      hide ReadingHead, LineBufferOk;
      var more := true;
      while more
        invariant DeqOk(io.sendDeq) && ReadingHead() && LineBufferOk(io)
        invariant io.recvBuffer == old(io.recvBuffer) || fresh(io.recvBuffer)
        invariant socket.received + socket.arriving == old(socket.received) + old(socket.arriving)
        invariant behind <= |requestLines| && requestLines[..behind] == kept + Join(heads)
        invariant AllHeads(heads) && AllButLastGet(decode, kept, heads)
        invariant more ==> !closed && (heads == [] || decode(kept + Join(heads)).Get?)
        invariant more ==> Gave(old(socket.recvs), socket.recvs)
        invariant !more ==>
          if heads != [] && decode(kept + Join(heads)).Undecodable?
          then !closed && Gave(old(socket.recvs), socket.recvs)
          else Stopped(old(socket.recvs), socket.recvs, io.recvPos == LINE_BUFFER, if closed then Gone else Wait)
        invariant !more ==>
          NoBlank(socket.received[behind..]) || (heads != [] && decode(kept + Join(heads)).Undecodable?)
        invariant o == HeadsOutcome(id, cl, decode, kept, heads, plan)
        invariant end == (if closed then ThenClosed(id, o) else o) && Did(end)
        decreases |socket.arriving|, more
      {
        ghost var outcome, head, recvs := *, *, socket.recvs;
        outcome, head, more := Round(decode);
        ghost var r := RoundOutcome(id, o, outcome, decode(requestLines[..behind]));
        PushMore(queue, lost, o.ops, r.ops);
        end := r.(ops := o.ops + r.ops);
        OneMoreHead(id, cl, decode, kept, heads, head, plan);
        if outcome.Complete? {
          heads, o := heads + [head], end;
          GaveTwice(old(socket.recvs), recvs, socket.recvs);
        } else {
          GaveThenStopped(old(socket.recvs), recvs, socket.recvs, io.recvPos == LINE_BUFFER, outcome);
          assert head == [] && kept + Join(heads) + head == kept + Join(heads) && o.ops + [] == o.ops;
          closed := outcome.Gone?;
        }
      }
    }

    /** `on_rtsocket_read` of the server: its loop, and what it means.  A request ends with its file
        being opened from the offset it asks for, or with a 400 reply. */
    method OnRtsocketRead(decode: Decoder) returns (ghost heads: seq<seq<byte>>, ghost closed: bool)
      requires DeqOk(io.sendDeq) && ReadingHead()
      modifies this, socket, io, fileServer, io.recvBuffer
      ensures ReadingHead() && DeqOk(io.sendDeq)
      ensures socket.received + socket.arriving == old(socket.received) + old(socket.arriving)
      ensures requestLines[..behind] == old(requestLines[..behind]) + Join(heads)
      ensures AllHeads(heads) && AllButLastGet(decode, old(requestLines[..behind]), heads)
      ensures (heads != [] && decode(requestLines[..behind]).Undecodable?) || NoBlank(socket.received[behind..])
      ensures if heads != [] && decode(requestLines[..behind]).Undecodable?
              then !closed && Gave(old(socket.recvs), socket.recvs)
              else Stopped(old(socket.recvs), socket.recvs, io.recvPos == LINE_BUFFER, if closed then Gone else Wait)
      ensures heads != [] ==>
        match decode(requestLines[..behind])
        case Get(file, offset) =>
          && reqFilePos == curFilePos == offset && path == file
          && (Open(id, file) in fileServer.opQueue || Open(id, file) in fileServer.lost)
        case Undecodable(message) =>
          socket.accepted + Unsent(io.sendDeq)
          == old(socket.accepted) + Unsent(old(io.sendDeq)) + BadRequestReply(message)
      ensures var o := HeadsOutcome(id, old(Abs()), decode, old(requestLines[..behind]), heads, old(socket.sendPlan));
              Did(if closed then ThenClosed(id, o) else o)
    {
      hide HeadsOutcome, HeadEnds, NoBlank, NoLf, OpenLines, PushOps, Join, AllButLastGet, AllHeads;
      hide Gave, Stopped, Unsent;
      ghost var cl, kept, plan := Abs(), requestLines[..behind], socket.sendPlan;
      ghost var queue := fileServer.opQueue;
      hide ReadingHead;
      heads, closed := ReadHeads(decode);
      LastHeadMeans(id, cl, decode, kept, heads, plan);
      ghost var o := HeadsOutcome(id, cl, decode, kept, heads, plan);
      EachQueuedOrLost(queue, if closed then ThenClosed(id, o).ops else o.ops);
    }
  }

  lemma EachQueuedOrLost(queue: seq<FileOp>, more: seq<FileOp>)
    ensures forall op :: op in more ==> op in PushOps(queue, more).0 || op in PushOps(queue, more).1
  {
    var r := PushOps(queue, more);
    forall op | op in more ensures op in r.0 || op in r.1 {
      assert op in queue + more;
      assert op in r.0 + r.1;
    }
  }

  /** What a completion leads to, in terms of what it brings. */
  lemma OpenMeans(c: ClientId, cl: Client, found: Option<Path>, size: nat, plan: seq<int>)
    ensures var o := OnOpenDone(c, cl, found, size, plan).cl;
      && o.reqPos == cl.reqPos
      && o.accepted + Unsent(o.deq)
         == cl.accepted + Unsent(cl.deq) + (if found.Some? then ReplyHead(cl.reqPos, size) else NotFoundReply())
      && (found.Some? ==> o.handle == found && o.fileSize == size)
  {
    hide Unsent, Flush, ReplyHead, NotFoundReply;
    var head := if found.Some? then ReplyHead(cl.reqPos, size) else NotFoundReply();
    var begun := if found.Some? then cl.(handle := found, fileSize := size, started := true, head := head)
                 else cl.(waitingClose := true, head := head);
    PushExtendsStream(begun, head);
    SentKeepsStream(Push(begun, head), plan);
  }

  lemma ReadMeans(c: ClientId, cl: Client, data: Option<Block>, plan: seq<int>)
    ensures var o := OnReadDone(c, cl, data, plan).cl;
      match data
      case Some(block) =>
        o.accepted + Unsent(o.deq) == cl.accepted + Unsent(cl.deq) + block && o.curPos == cl.curPos + |block|
      case None => o.handle.None? && !o.live
  {
    hide Unsent, Flush;
    if data.Some? {
      var idle := cl.(reading := false);
      PushExtendsStream(idle, data.value);
      SentKeepsStream(Push(idle, data.value), plan);
    }
  }

  /** What a head leads to, in terms of what it asks for. */
  lemma HeadMeans(c: ClientId, cl: Client, decoded: Decoded, plan: seq<int>)
    ensures var o := HeadOutcome(c, cl, decoded, plan);
      match decoded
      case Get(file, offset) =>
        && o.cl == cl.(reqPos := offset, curPos := offset, requested := true, path := file)
        && o.ops == [Open(c, file)] && o.plan == plan
      case Undecodable(message) =>
        && o.cl.accepted + Unsent(o.cl.deq) == cl.accepted + Unsent(cl.deq) + BadRequestReply(message)
        && o.cl.waitingClose && (cl.live ==> (o.cl.live <==> o.cl.deq != []))
  {
    hide Unsent, Flush;
    if decoded.Undecodable? {
      var begun := cl.(requested := true, waitingClose := true, head := BadRequestReply(decoded.message));
      PushExtendsStream(begun, BadRequestReply(decoded.message));
      SentKeepsStream(Push(begun, BadRequestReply(decoded.message)), plan);
    }
  }

  /** A head on a connection without one is the event of the server that the theorems are about. */
  lemma HeadIsAnEvent(s: Server, c: ClientId, decoded: Decoded, plan: seq<int>)
    requires c in s.clients && s.clients[c].live && !s.clients[c].requested
    ensures var o := HeadOutcome(c, s.clients[c], decoded, plan);
      match decoded
      case Get(file, offset) =>
        Enabled(s, Request(c, file, offset)) && o == Handled(s, Request(c, file, offset)).(plan := plan)
      case Undecodable(message) =>
        Enabled(s, BadRequest(c, message, plan)) && o == Handled(s, BadRequest(c, message, plan))
  {
    hide OnBadRequest;
  }

  lemma {:induction false} GetsKeepStream(c: ClientId, cl: Client, decode: Decoder, kept: seq<byte>,
                                          heads: seq<seq<byte>>, plan: seq<int>)
    requires AllButLastGet(decode, kept, heads) && (heads == [] || decode(kept + Join(heads)).Get?)
    ensures var o := HeadsOutcome(c, cl, decode, kept, heads, plan);
            o.cl.accepted == cl.accepted && o.cl.deq == cl.deq && o.plan == plan
    decreases |heads|
  {
    hide HeadOutcome, Join;
    if heads != [] {
      var init := heads[..|heads| - 1];
      FewerGets(decode, kept, heads);
      GetsKeepStream(c, cl, decode, kept, init, plan);
      var before := HeadsOutcome(c, cl, decode, kept, init, plan);
      HeadMeans(c, before.cl, decode(kept + Join(heads)), before.plan);
    }
  }

  lemma FewerGets(decode: Decoder, kept: seq<byte>, heads: seq<seq<byte>>)
    requires AllButLastGet(decode, kept, heads) && heads != []
    ensures var init := heads[..|heads| - 1];
            AllButLastGet(decode, kept, init) && (init == [] || decode(kept + Join(init)).Get?)
  {
    var init := heads[..|heads| - 1];
    assert forall k :: 0 < k <= |init| ==> heads[..k] == init[..k];
    assert init[..|init|] == init;
    if init != [] { assert heads[..|init|] == init && 0 < |init| < |heads|; }
  }

  /** The last head of a series decides. */
  lemma LastHeadMeans(c: ClientId, cl: Client, decode: Decoder, kept: seq<byte>, heads: seq<seq<byte>>, plan: seq<int>)
    requires AllButLastGet(decode, kept, heads)
    ensures heads != [] ==>
      var o := HeadsOutcome(c, cl, decode, kept, heads, plan);
      match decode(kept + Join(heads))
      case Get(file, offset) =>
        o.cl.reqPos == o.cl.curPos == offset && o.cl.path == file && Open(c, file) in o.ops
      case Undecodable(message) =>
        o.cl.accepted + Unsent(o.cl.deq) == cl.accepted + Unsent(cl.deq) + BadRequestReply(message)
  {
    hide HeadOutcome, Join, AllButLastGet, Unsent;
    if heads != [] {
      var init := heads[..|heads| - 1];
      FewerGets(decode, kept, heads);
      GetsKeepStream(c, cl, decode, kept, init, plan);
      var before := HeadsOutcome(c, cl, decode, kept, init, plan);
      HeadMeans(c, before.cl, decode(kept + Join(heads)), before.plan);
    }
  }

  lemma WholeLines(lines: seq<byte>)
    ensures lines[..|lines|] == lines
  {
  }

  lemma NothingPushed(queue: seq<FileOp>, lost: set<FileOp>)
    ensures PushOps(queue, []) == (queue, []) && lost + (set op | op in PushOps(queue, []).1) == lost
  {
    assert queue + [] == queue;
  }

  /** Each ends with its only blank line. */
  ghost predicate AllHeads(heads: seq<seq<byte>>) { forall h :: h in heads ==> HeadEnds(h, |h|) }

  /** Every head but the last is the start of a download. */
  ghost predicate AllButLastGet(decode: Decoder, kept: seq<byte>, heads: seq<seq<byte>>) {
    forall k :: 0 < k < |heads| ==> decode(kept + Join(heads[..k])).Get?
  }

  lemma NoHeads(c: ClientId, cl: Client, decode: Decoder, kept: seq<byte>, plan: seq<int>)
    ensures HeadsOutcome(c, cl, decode, kept, [], plan) == Outcome(cl, [], plan)
    ensures kept + Join([]) == kept && AllButLastGet(decode, kept, []) && AllHeads([])
  {
    assert kept + [] == kept;
  }

  lemma OneMoreHead(c: ClientId, cl: Client, decode: Decoder, kept: seq<byte>, heads: seq<seq<byte>>, head: seq<byte>,
                    plan: seq<int>)
    requires AllButLastGet(decode, kept, heads) && (heads == [] || decode(kept + Join(heads)).Get?)
    requires AllHeads(heads)
    ensures AllButLastGet(decode, kept, heads + [head])
    ensures HeadEnds(head, |head|) ==> AllHeads(heads + [head])
    ensures kept + Join(heads) + head == kept + Join(heads + [head])
    ensures var o := HeadsOutcome(c, cl, decode, kept, heads, plan);
            var r := HeadOutcome(c, o.cl, decode(kept + Join(heads + [head])), o.plan);
            HeadsOutcome(c, cl, decode, kept, heads + [head], plan) == r.(ops := o.ops + r.ops)
  {
    JoinAppend(heads, [head]);
    assert Join([head]) == head + Join([]);
    assert forall k :: 0 < k <= |heads| ==> (heads + [head])[..k] == heads[..k];
    assert heads[..|heads|] == heads;
    hide HeadOutcome, Join;
  }

  lemma NothingIsOpen(lines: seq<byte>)
    ensures OpenLines(lines[|lines|..]) && lines + [] == lines
  {
  }
}
