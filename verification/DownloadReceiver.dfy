/** The receiving object of the downloader, its buffer filled in place, and the two halves of its
    writer thread. */
module DownloadReceiver {
  import opened Streams
  import opened Transport
  import opened HttpText
  import opened LineReader
  import opened Downloader

  function Step(http: Http, p: Peer, chunk: seq<byte>): Peer {
    if 0 < |chunk| <= Want(p) then OnChunk(http, p, chunk) else p
  }

  /** The receiver after a series of successful `rt_recv` calls. */
  function RunChunks(http: Http, p: Peer, chunks: seq<seq<byte>>): Peer {
    if chunks == [] then p
    else Step(http, RunChunks(http, p, chunks[..|chunks| - 1]), chunks[|chunks| - 1])
  }

  lemma RunSnoc(http: Http, p: Peer, chunks: seq<seq<byte>>, c: seq<byte>)
    ensures RunChunks(http, p, chunks + [c]) == Step(http, RunChunks(http, p, chunks), c)
  {
    assert (chunks + [c])[..|chunks|] == chunks;
  }

  /** Bytes of one line, before its newline, only fill the buffer. */
  lemma {:induction false} RunLinePart(http: Http, p: Peer, chunks: seq<seq<byte>>, part: seq<byte>)
    requires var q := RunChunks(http, p, chunks);
             q.fileSize == 0 && NoLf(part) && |q.buf| + |part| <= LINE_BUFFER
    ensures var q := RunChunks(http, p, chunks);
            RunChunks(http, p, chunks + Singles(part))
            == q.(buf := q.buf + part, live := q.live && (part == [] || |q.buf| + |part| < LINE_BUFFER))
    decreases |part|
  {
    var q := RunChunks(http, p, chunks);
    if part == [] {
      assert chunks + Singles(part) == chunks && q.buf + part == q.buf;
    } else {
      var init, last := part[..|part| - 1], part[|part| - 1];
      assert part == init + [last];
      RunLinePart(http, p, chunks, init);
      SinglesSnoc(init, last);
      RunSnoc(http, p, chunks + Singles(init), [last]);
      assert chunks + Singles(part) == (chunks + Singles(init)) + [[last]];
      assert q.buf + part == (q.buf + init) + [last];
    }
  }

  /** The bytes of a complete line. */
  lemma RunLine(http: Http, p: Peer, chunks: seq<seq<byte>>, part: seq<byte>)
    requires var q := RunChunks(http, p, chunks);
             q.fileSize == 0 && q.live && NoLf(part) && |q.buf| + |part| < LINE_BUFFER
    ensures var q := RunChunks(http, p, chunks);
            RunChunks(http, p, chunks + Singles(part + [LF])) == OnHeadByte(http, q.(buf := q.buf + part), LF)
  {
    RunLinePart(http, p, chunks, part);
    SinglesSnoc(part, LF);
    RunSnoc(http, p, chunks + Singles(part), [LF]);
    assert chunks + Singles(part + [LF]) == (chunks + Singles(part)) + [[LF]];
  }

  /** How one branch of the read handler ends: with bytes; or, if they leave the connection up, because
      the library has answered `ret`; or given up for what the bytes were. */
  ghost predicate BranchEnds(before: seq<int>, after: seq<int>, q: Peer, v: Peer, ret: int) {
    if ret <= 0 && q.live then Declined(before, after, ret) && v == if ret == -1 then q else OnGone(q)
    else Gave(before, after) && v == q
  }

  /** How the whole read handler ends. */
  ghost predicate ReadEnds(before: seq<int>, after: seq<int>, q: Peer, v: Peer) {
    if q.live then exists ret :: Declined(before, after, ret) && v == if ret == -1 then q else OnGone(q)
    else Gave(before, after) && v == q
  }

  /** `rtsocket_client_context` as the two threads of the downloader use it. */
  class DownloadContext {
    const socket: RtSocket
    const io: SocketIo
    var responseLine: seq<byte>
    var fileSize: nat
    var downloadedSize: nat
    var writeFileDeq: seq<WriteItem>
    var writePos: nat
    var writer: WriterState            // where the writer thread is
    var held: Option<WriteItem>        // the writer's local `item`
    var file: seq<byte>                // what fwrite has put into the local file
    ghost var body: seq<byte>

    constructor (socket: RtSocket, io: SocketIo)
      requires socket.live && socket.received == [] && io.recvBuffer == null && io.recvPos == 0
      ensures this.socket == socket && this.io == io && View() == NEW_PEER && Valid()
    {
      this.socket, this.io := socket, io;
      responseLine, fileSize, downloadedSize, writeFileDeq, writePos := [], 0, 0, [], 0;
      writer, held, file, body := NotStarted, None, [], [];
    }

    ghost function View(): Peer
      reads this, socket, io, io.recvBuffer
    {
      Peer(responseLine, io.Filled(), fileSize, downloadedSize, socket.live,
           writeFileDeq, held, writer, writePos, file, body)
    }

    ghost predicate BuffersOk()
      reads this, io, io.recvBuffer
    {
      if io.recvBuffer == null then io.recvPos == 0
      else if fileSize == 0 then LineBufferOk(io) && NoLf(io.Filled()) && io.recvPos < LINE_BUFFER
      else io.recvBuffer.Length == io.recvLen == BODY_BUFFER && io.recvPos < BODY_BUFFER
    }

    method AllocateBody()
      requires fileSize > 0 && BuffersOk()
      modifies io`recvBuffer, io`recvPos, io`recvLen
      ensures BuffersOk() && io.recvBuffer != null && io.Filled() == old(io.Filled())
      ensures io.recvBuffer == old(io.recvBuffer) || fresh(io.recvBuffer)
    {
      if io.recvBuffer == null {
        io.recvLen := BODY_BUFFER;
        io.recvPos := 0;
        io.recvBuffer := new byte[BODY_BUFFER];
        assert io.Filled() == [];
      }
    }

    /** A chunk that has just come: a full block goes to the queue. */
    method StoreChunk(ghost chunk: seq<byte>, ghost p: Peer, size: nat)
      requires io.recvBuffer != null && io.recvBuffer.Length == io.recvLen == BODY_BUFFER && io.recvPos <= BODY_BUFFER
      requires fileSize > 0 && size == |chunk| && p == View().(buf := p.buf) && io.Filled() == p.buf + chunk
      modifies this`downloadedSize, this`writeFileDeq, this`body, io`recvBuffer, io`recvPos, io`recvLen
      ensures View() == OnBodyChunk(p, chunk) && body == old(body) + chunk
      ensures var block := p.buf + chunk;
        if |block| == BODY_BUFFER || downloadedSize == fileSize
        then writeFileDeq == old(writeFileDeq) + [Data(block)] && io.Filled() == []
        else writeFileDeq == old(writeFileDeq) && io.Filled() == block
      ensures downloadedSize == old(downloadedSize) + size
      ensures BuffersOk() && (io.recvBuffer == null || io.recvBuffer == old(io.recvBuffer))
    {
      hide NoLf, LineBufferOk;
      downloadedSize := downloadedSize + size;
      body := body + chunk;
      if io.recvPos == io.recvLen || downloadedSize == fileSize {
        writeFileDeq := writeFileDeq + [Data(io.recvBuffer[..io.recvPos])];
        io.recvBuffer := null;
        io.recvPos := 0;
        io.recvLen := 0;
      }
    }

    /** The body branch of `on_rtsocket_read`: one `rt_recv`. */
    method ReceiveBody() returns (ret: int, ghost chunk: seq<byte>)
      requires fileSize > 0 && BuffersOk()
      modifies this`downloadedSize, this`writeFileDeq, this`body, io, io.recvBuffer
      modifies socket`recvPlan, socket`recvs, socket`arriving, socket`received, socket`log
      ensures BuffersOk() && (io.recvBuffer == null || io.recvBuffer == old(io.recvBuffer) || fresh(io.recvBuffer))
      ensures ret <= 0 ==>
        View() == old(View()) && socket.log == old(socket.log) && socket.received == old(socket.received)
      ensures ret > 0 ==>
        && |socket.arriving| < |old(socket.arriving)|
        && socket.log == old(socket.log) + [chunk]
        && 0 < |chunk| <= Want(old(View()))
        && socket.received == old(socket.received) + chunk
        && body == old(body) + chunk
        && View() == OnBodyChunk(old(View()), chunk)
      ensures socket.recvs == old(socket.recvs) + [ret]
      ensures ret > 0 ==>
        var block := old(io.Filled()) + chunk;
        if |block| == 256 * 1024 || downloadedSize == fileSize
        then writeFileDeq == old(writeFileDeq) + [Data(block)] && io.Filled() == []
        else writeFileDeq == old(writeFileDeq) && io.Filled() == block
      ensures downloadedSize == old(downloadedSize) + if ret > 0 then ret else 0
    {
      hide NoLf, LineBufferOk, OnBodyChunk;
      AllocateBody();
      ghost var p := View();
      ret, chunk := RecvMore(socket, io, io.recvLen - io.recvPos);
      if ret > 0 {
        StoreChunk(chunk, p, ret);
      }
    }

    /** The whole branch: the block stored, or the connection given up and the writer told. */
    method ReceiveBlock(http: Http) returns (ret: int, ghost chunks: seq<seq<byte>>)
      requires Valid() && socket.live && fileSize > 0
      modifies this`downloadedSize, this`writeFileDeq, this`body, io, io.recvBuffer
      modifies socket`recvPlan, socket`recvs, socket`arriving, socket`received, socket`log, socket`live
      ensures io.recvBuffer == null || io.recvBuffer == old(io.recvBuffer) || fresh(io.recvBuffer)
      ensures socket.log == old(socket.log) + chunks
      ensures BranchEnds(old(socket.recvs), socket.recvs, RunChunks(http, old(View()), chunks), View(), ret)
      ensures socket.live ==> Valid() && (ret == -1 || (ret > 0 && |socket.arriving| < |old(socket.arriving)|))
    {
      hide RunChunks, OnBodyChunk, BuffersOk, Gave, Declined;
      ghost var p := View();
      ghost var chunk;
      NothingAsked(socket.recvs);
      ret, chunk := ReceiveBody();
      GaveMore(old(socket.recvs), old(socket.recvs), ret);
      RunNothing(http, p);
      if ret > 0 {
        chunks := [chunk];
        RunSnoc(http, p, [], chunk);
        assert [] + [chunk] == [chunk];
        Regroup(responseLine, p.body, chunk);
      } else {
        chunks := [];
        if ret != -1 {
          writeFileDeq := writeFileDeq + [EndMark];
          socket.Close();
        }
      }
    }

    /** A complete line in the receive buffer. */
    method OnLine(http: Http)
      requires fileSize == 0 && LineBufferOk(io) && IsLine(io.Filled()) && socket.live
      modifies this`responseLine, this`fileSize, this`writer, io`recvBuffer, io`recvPos, socket`live
      ensures View() == OnHeadByte(http, old(View()).(buf := old(io.Filled())[..|old(io.Filled())| - 1]), LF)
      ensures io.recvBuffer == null || io.recvBuffer == old(io.recvBuffer)
      ensures BuffersOk()
      ensures responseLine == old(responseLine) + old(io.Filled()) && (fileSize == 0 ==> io.Filled() == [])
    {
      var line := io.recvBuffer[..io.recvPos];
      assert line[..|line| - 1] + [LF] == line;
      responseLine := responseLine + line;
      io.recvPos := 0;
      EmptyHasNoLf();
      assert io.Filled() == [];
      if Blank(line) {
        match http(responseLine) {
          case Some(size) =>
            io.recvBuffer := null;
            fileSize := size;
            writer := Running;
          case None =>
            socket.Close();
        }
      }
    }

    method AllocateLine()
      requires fileSize == 0 && BuffersOk()
      modifies io`recvBuffer, io`recvPos, io`recvLen
      ensures LineBufferOk(io) && BuffersOk() && io.Filled() == old(io.Filled())
      ensures io.recvBuffer == old(io.recvBuffer) || fresh(io.recvBuffer)
    {
      if io.recvBuffer == null {
        io.recvLen := LINE_BUFFER;
        io.recvPos := 0;
        io.recvBuffer := new byte[LINE_BUFFER];
        EmptyHasNoLf();
        assert io.Filled() == [];
      }
    }

    /** The head branch of `on_rtsocket_read`: one line, and what it means. */
    method ReceiveHead(http: Http) returns (ret: int, ghost chunks: seq<seq<byte>>)
      requires fileSize == 0 && Valid() && socket.live
      modifies this`responseLine, this`fileSize, this`writer, io, io.recvBuffer
      modifies socket`recvPlan, socket`recvs, socket`arriving, socket`received, socket`log, socket`live
      ensures io.recvBuffer == null || io.recvBuffer == old(io.recvBuffer) || fresh(io.recvBuffer)
      ensures socket.log == old(socket.log) + chunks
      ensures BranchEnds(old(socket.recvs), socket.recvs, RunChunks(http, old(View()), chunks), View(), ret)
      ensures socket.live ==> Valid() && (ret == -1 || (ret > 0 && |socket.arriving| < |old(socket.arriving)|))
    {
      hide RunChunks, IsLine, OnHeadByte, Singles, NoLf, Gave, Declined;
      AllocateLine();
      ghost var p, before := View(), io.Filled();
      assert p == old(View());
      ret := RecvLine(socket, io, responseLine);
      ghost var part := io.Filled()[|before|..];
      chunks := Singles(part);
      LineRead(http, p, before, io.Filled(), ret > 0);
      if ret > 0 {
        OnLine(http);
      } else if ret != -1 {
        socket.Close();
      }
    }

    ghost predicate Valid()
      reads this, socket, io, io.recvBuffer
    {
      BuffersOk() && socket.received == Received(View()) && (fileSize == 0 ==> body == [])
    }

    /** `on_rtsocket_read`: head lines, then body blocks, until the library has nothing more.  The
        receiver ends where the chunks it was given take it; a connection that is closed or broken
        is given up, with an end mark for the writer if a body was under way. */
    method OnRtsocketRead(http: Http) returns (ghost chunks: seq<seq<byte>>)
      requires Valid() && socket.live
      modifies this, io, io.recvBuffer
      modifies socket`recvPlan, socket`recvs, socket`arriving, socket`received, socket`log, socket`live
      ensures socket.log == old(socket.log) + chunks
      ensures ReadEnds(old(socket.recvs), socket.recvs, RunChunks(http, old(View()), chunks), View())
      ensures socket.live ==> Valid()
    {
      hide RunChunks, OnHeadByte, OnBodyChunk, Valid, Gave, Declined;
      NothingAsked(socket.recvs);
      ghost var start := View();
      chunks := [];
      RunNothing(http, start);
      while true
        invariant Valid() && socket.live
        invariant io.recvBuffer == null || io.recvBuffer == old(io.recvBuffer) || fresh(io.recvBuffer)
        invariant socket.log == old(socket.log) + chunks
        invariant View() == RunChunks(http, start, chunks)
        invariant Gave(old(socket.recvs), socket.recvs)
        decreases |socket.arriving|
      {
        var ret;
        ghost var more, recvs := [], socket.recvs;
        if fileSize == 0 {
          ret, more := ReceiveHead(http);
        } else {
          ret, more := ReceiveBlock(http);
        }
        RunAgain(http, start, chunks, more);
        chunks := chunks + more;
        if ret <= 0 && RunChunks(http, start, chunks).live {
          GaveThenDeclined(old(socket.recvs), recvs, socket.recvs, ret);
        } else {
          GaveTwice(old(socket.recvs), recvs, socket.recvs);
        }
        if !socket.live || ret == -1 {
          return;
        }
      }
    }

    /** `on_rtsocket_error`. */
    method OnRtsocketError()
      modifies socket`live
      ensures View() == OnError(old(View()))
    {
      socket.Close();
    }

    /** `thread_write_file_proc`, the part under the lock. */
    method WriterTake()
      requires writer == Running && held == None && writeFileDeq != []
      modifies this`held, this`writeFileDeq
      ensures View() == WriterTakes(old(View()))
    {
      held := Some(writeFileDeq[0]);
      writeFileDeq := writeFileDeq[1..];
    }

    /** `thread_write_file_proc`, the part after the lock; `fwrite` takes `n` bytes at most. */
    method WriterWrite(n: nat)
      requires writer == Running && held != None && writePos <= |file|
      modifies this`held, this`file, this`writePos, this`writer
      ensures View() == WriterWrites(old(View()), n)
    {
      match held.value {
        case EndMark =>
          writer := Ended;
          held := None;
        case Data(bytes) =>
          hide WriteAt;
          var ret := Min(n, |bytes|);
          assert bytes[..|bytes|] == bytes;
          file := WriteAt(file, writePos, bytes[..ret]);
          if ret == |bytes| {
            writePos := writePos + ret;
            held := None;
            if writePos == fileSize {
              writer := WriterState.Complete;
            }
          } else {
            writer := Failed;
          }
      }
    }
  }

  lemma RunNothing(http: Http, p: Peer)
    ensures RunChunks(http, p, []) == p
  {
  }

  lemma {:induction false} RunAgain(http: Http, p: Peer, a: seq<seq<byte>>, b: seq<seq<byte>>)
    ensures RunChunks(http, p, a + b) == RunChunks(http, RunChunks(http, p, a), b)
    decreases |b|
  {
    if b == [] {
      assert a + b == a;
    } else {
      RunAgain(http, p, a, b[..|b| - 1]);
      assert (a + b)[..|a + b| - 1] == a + b[..|b| - 1];
    }
  }

  /** What `RecvLine` leaves in the buffer, byte by byte through the receiver. */
  lemma LineRead(http: Http, p: Peer, before: seq<byte>, filled: seq<byte>, whole: bool)
    requires p.fileSize == 0 && p.live && p.buf == before && before <= filled
    requires |before| < LINE_BUFFER && |filled| <= LINE_BUFFER
    requires NoLf(before) && if whole then IsLine(filled) else NoLf(filled)
    ensures var q := RunChunks(http, p, Singles(filled[|before|..]));
      if whole then q == OnHeadByte(http, p.(buf := filled[..|filled| - 1]), LF)
      else q == p.(buf := filled, live := |filled| < LINE_BUFFER)
  {
    var part := filled[|before|..];
    assert [] + Singles(part) == Singles(part);
    assert filled == before + part;
    if whole {
      var text := part[..|part| - 1];
      assert part == text + [LF];
      assert before + text == filled[..|filled| - 1];
      assert NoLf(text) by {
        assert forall i :: 0 <= i < |text| ==> text[i] == filled[..|filled| - 1][|before| + i];
      }
      RunNothing(http, p);
      RunLine(http, p, [], text);
    } else {
      RunLinePart(http, p, [], part);
    }
  }
}
