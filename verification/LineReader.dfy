/** Reading a head line by line, one byte at a time: `recv_request_line` of the server and
    `recv_response_line` of the client, and the server's loop over them. */
module LineReader {
  import opened Streams
  import opened Transport
  import opened HttpText

  /** The codes the transport documents: would-block, closed, or an error from -100 down. */
  ghost predicate Documented(plan: seq<int>) {
    forall i :: 0 <= i < |plan| ==> plan[i] >= -1 || plan[i] <= -100
  }

  const LINE_TOO_LONG := -2

  ghost predicate LineBufferOk(io: SocketIo)
    reads io, io.recvBuffer
  {
    io.recvBuffer != null && io.recvBuffer.Length == io.recvLen == LINE_BUFFER && io.recvPos <= LINE_BUFFER
  }

  function Singles(s: seq<byte>): seq<seq<byte>> {
    seq(|s|, i requires 0 <= i < |s| => [s[i]])
  }

  /** One byte of a line, `b`, if there is one. */
  method RecvByte(socket: RtSocket, io: SocketIo, ghost base: seq<byte>) returns (ret: int, ghost b: seq<byte>)
    requires LineBufferOk(io) && io.recvPos < LINE_BUFFER && NoLf(io.Filled())
    requires socket.received == base + io.Filled()
    modifies socket`recvPlan, socket`recvs, socket`arriving, socket`received, socket`log, io`recvPos, io.recvBuffer
    ensures LineBufferOk(io) && io.Filled() == old(io.Filled()) + b && |b| == if ret > 0 then 1 else 0
    ensures socket.received == base + io.Filled() && old(socket.arriving) == b + socket.arriving
    ensures socket.received + socket.arriving == old(socket.received) + old(socket.arriving)
    ensures socket.log == old(socket.log) + if ret > 0 then [b] else []
    ensures socket.recvs == old(socket.recvs) + [ret]
    ensures ret > 0 && io.recvBuffer[io.recvPos - 1] == LF ==> IsLine(io.Filled()) && !NoLf(io.Filled())
    ensures ret > 0 && io.recvBuffer[io.recvPos - 1] != LF ==> NoLf(io.Filled())
    ensures ret <= 0 ==> NoLf(io.Filled()) && io.Filled() == old(io.Filled())
    ensures Documented(old(socket.recvPlan)) ==>
              Documented(socket.recvPlan) && (ret <= 0 ==> ret != LINE_TOO_LONG)
  {
    hide NoLf, IsLine, Documented;
    ghost var filled, got := io.Filled(), socket.received;
    DocumentedAnswer(socket.recvPlan, 1, |socket.arriving|);
    ret, b := RecvMore(socket, io, 1);
    Regroup(base, filled, b);
    Regroup(got, b, socket.arriving);
    if ret > 0 {
      assert b == [b[0]];
      LineGrows(filled, b[0]);
    } else {
      assert filled + b == filled;
    }
  }

  /** A moment of a stream: bytes read, bytes to come, chunks so far, and the line buffer. */
  datatype Moment = Moment(received: seq<byte>, arriving: seq<byte>, log: seq<seq<byte>>, filled: seq<byte>)

  ghost function Now(socket: RtSocket, io: SocketIo): Moment
    reads socket, io, io.recvBuffer
  {
    Moment(socket.received, socket.arriving, socket.log, io.Filled())
  }

  /** Only single bytes have been read since, and they are in the buffer. */
  ghost predicate ReadSince(m: Moment, n: Moment, base: seq<byte>) {
    && m.filled <= n.filled
    && n.received == base + n.filled
    && n.received + n.arriving == m.received + m.arriving
    && n.log == m.log + Singles(n.filled[|m.filled|..])
    && |n.arriving| + |n.filled| == |m.arriving| + |m.filled|
  }

  lemma ReadNothing(m: Moment, base: seq<byte>)
    requires m.received == base + m.filled
    ensures ReadSince(m, m, base)
  {
    assert m.log + Singles([]) == m.log;
  }

  lemma ReadOneMore(m: Moment, n: Moment, n': Moment, base: seq<byte>, b: seq<byte>)
    requires ReadSince(m, n, base) && |b| <= 1
    requires n'.filled == n.filled + b && n'.received == base + n'.filled && n.arriving == b + n'.arriving
    requires n'.received + n'.arriving == n.received + n.arriving
    requires n'.log == n.log + if b == [] then [] else [b]
    ensures ReadSince(m, n', base)
  {
    var at := |m.filled|;
    assert n'.filled[at..] == n.filled[at..] + b;
    if b == [] {
      assert n'.filled[at..] == n.filled[at..];
    } else {
      assert b == [b[0]];
      SinglesSnoc(n.filled[at..], b[0]);
    }
    hide Singles;
  }

  /** One line, or the reason there is none yet.  `base` is the stream before the buffer.  Whatever
      has been read is in the buffer, and the buffer holds no newline except one that ends it. */
  method RecvLine(socket: RtSocket, io: SocketIo, ghost base: seq<byte>) returns (ret: int)
    requires LineBufferOk(io) && NoLf(io.Filled())
    requires socket.received == base + io.Filled()
    modifies socket`recvPlan, socket`recvs, socket`arriving, socket`received, socket`log, io`recvPos, io.recvBuffer
    ensures LineBufferOk(io) && ReadSince(old(Now(socket, io)), Now(socket, io), base)
    ensures if ret > 0 then ret == io.recvPos > |old(io.Filled())| && IsLine(io.Filled()) else NoLf(io.Filled())
    ensures if ret > 0 || io.recvPos == 4096 then Gave(old(socket.recvs), socket.recvs)
            else Declined(old(socket.recvs), socket.recvs, ret)
    ensures ret <= 0 && io.recvPos == 4096 ==> ret == -2
    ensures Documented(old(socket.recvPlan)) ==> Documented(socket.recvPlan)
    ensures Documented(old(socket.recvPlan)) ==>
              (ret == -2 <==> io.recvPos == 4096 && NoLf(io.Filled()))
  {
    hide NoLf, IsLine, Documented, ReadSince, Gave, Declined;
    NothingAsked(socket.recvs);
    ghost var start := Now(socket, io);
    ReadNothing(start, base);
    while io.recvPos < io.recvLen
      invariant LineBufferOk(io) && NoLf(io.Filled())
      invariant socket.received == base + io.Filled() && io.recvPos >= |start.filled|
      invariant ReadSince(start, Now(socket, io), base)
      invariant Gave(old(socket.recvs), socket.recvs)
      invariant Documented(old(socket.recvPlan)) ==> Documented(socket.recvPlan)
      decreases |socket.arriving|
    {
      ghost var before, recvs := Now(socket, io), socket.recvs;
      ghost var b;
      ret, b := RecvByte(socket, io, base);
      GaveMore(old(socket.recvs), recvs, ret);
      ReadOneMore(start, before, Now(socket, io), base, b);
      if ret <= 0 {
        return ret;
      }
      if io.recvBuffer[io.recvPos - 1] == LF {
        return io.recvPos;
      }
    }
    ret := LINE_TOO_LONG;
  }

  lemma DocumentedAnswer(plan: seq<int>, want: nat, avail: nat)
    ensures Documented(plan) ==> Documented(Used(plan)) && RecvResult(plan, want, avail) != LINE_TOO_LONG
  {
  }

  lemma LineGrows(part: seq<byte>, b: byte)
    requires NoLf(part)
    ensures if b == LF then IsLine(part + [b]) && !NoLf(part + [b]) else NoLf(part + [b])
  {
    assert (part + [b])[|part|] == b;
    assert (part + [b])[..|part|] == part;
  }

  lemma SinglesSnoc(s: seq<byte>, b: byte)
    ensures Singles(s + [b]) == Singles(s) + [[b]]
  {
  }

  datatype HeadRead = Complete | Wait | Gone

  /** Why there is no complete head: a line fills the whole buffer, or the library has nothing more.
      The connection waits exactly for "would block". */
  ghost predicate Stopped(before: seq<int>, after: seq<int>, tooLong: bool, outcome: HeadRead) {
    if tooLong then outcome == Gone && Gave(before, after)
    else exists ret :: Declined(before, after, ret) && outcome == if ret == EWOULDBLOCK then Wait else Gone
  }

  lemma GaveThenStopped(a: seq<int>, b: seq<int>, c: seq<int>, tooLong: bool, outcome: HeadRead)
    requires Gave(a, b) && Stopped(b, c, tooLong, outcome)
    ensures Stopped(a, c, tooLong, outcome)
  {
    if tooLong {
      GaveTwice(a, b, c);
    } else {
      var ret :| Declined(b, c, ret) && outcome == if ret == EWOULDBLOCK then Wait else Gone;
      GaveThenDeclined(a, b, c, ret);
    }
  }

  /** One round of the loop: a line, taken out of the buffer, or the reason there is none. */
  method TakeLine(socket: RtSocket, io: SocketIo, ghost base: seq<byte>) returns (ret: int, line: seq<byte>)
    requires LineBufferOk(io) && NoLf(io.Filled()) && socket.received == base + io.Filled()
    modifies socket`recvPlan, socket`recvs, socket`arriving, socket`received, socket`log, io`recvPos, io.recvBuffer
    ensures LineBufferOk(io) && NoLf(io.Filled())
    ensures socket.received + socket.arriving == old(socket.received) + old(socket.arriving)
    ensures ret > 0 ==>
      && IsLine(line) && io.Filled() == [] && io.recvPos == 0 && socket.received == base + line
      && |socket.arriving| < |old(socket.arriving)|
    ensures |socket.arriving| <= |old(socket.arriving)|
    ensures ret <= 0 ==> line == [] && socket.received == base + io.Filled()
    ensures ret <= 0 && io.recvPos == LINE_BUFFER ==> ret != -1
    ensures if ret > 0 || io.recvPos == LINE_BUFFER then Gave(old(socket.recvs), socket.recvs)
            else Declined(old(socket.recvs), socket.recvs, ret)
  {
    hide NoLf, IsLine, Singles, Documented, Gave, Declined;
    line := [];
    ret := RecvLine(socket, io, base);
    if ret > 0 {
      line := io.recvBuffer[..io.recvPos];
      io.recvPos := 0;
      EmptyHasNoLf();
      assert io.Filled() == [];
    }
  }

  /** The lines kept since the last head: whole, and none of them blank. */
  ghost predicate OpenLines(lines: seq<byte>) {
    NoBlank(lines) && (lines == [] || lines[|lines| - 1] == LF)
  }

  lemma OneMoreLine(lines: seq<byte>, line: seq<byte>, behind: nat)
    requires IsLine(line) && behind <= |lines| && OpenLines(lines[behind..])
    ensures var rest := (lines + line)[behind..];
            if Blank(line) then HeadEnds(rest, |lines| + |line| - behind) else OpenLines(rest)
  {
    hide NoBlank, HeadEnds, NoLf, Blank;
    LineEnds(lines[behind..], line);
    assert (lines + line)[behind..] == lines[behind..] + line;
  }

  lemma PartialLine(lines: seq<byte>, part: seq<byte>)
    requires OpenLines(lines) && NoLf(part)
    ensures NoBlank(lines + part)
  {
    NoBlankInPartialLine(lines, part);
  }

  /** The server's loop in `on_rtsocket_read` up to the end of a head.  The lines are never dropped:
      `behind` of their bytes belong to the heads before.  At every return the lines kept and the
      buffer are the bytes received, and the head is complete exactly when what came behind the last
      one ends with its first blank line, whatever chunks it came in. */
  method ReadRequestHead(socket: RtSocket, io: SocketIo, requestLines: seq<byte>, ghost behind: nat)
    returns (outcome: HeadRead, lines: seq<byte>)
    requires LineBufferOk(io) && NoLf(io.Filled())
    requires socket.received == requestLines + io.Filled()
    requires behind <= |requestLines| && OpenLines(requestLines[behind..])
    modifies socket`recvPlan, socket`recvs, socket`arriving, socket`received, socket`log, io`recvPos, io.recvBuffer
    ensures LineBufferOk(io) && NoLf(io.Filled())
    ensures socket.received == lines + io.Filled() && requestLines <= lines
    ensures socket.received + socket.arriving == old(socket.received) + old(socket.arriving)
    ensures outcome.Complete? ==> HeadEnds(lines[behind..], |lines| - behind) && io.Filled() == []
    ensures |socket.arriving| <= |old(socket.arriving)| - if outcome.Complete? then 1 else 0
    ensures !outcome.Complete? ==> NoBlank(lines[behind..] + io.Filled()) && OpenLines(lines[behind..])
    ensures outcome.Complete? ==> Gave(old(socket.recvs), socket.recvs)
    ensures !outcome.Complete? ==> Stopped(old(socket.recvs), socket.recvs, io.recvPos == 4096, outcome)
  {
    hide NoBlank, HeadEnds, NoLf, LineBufferOk, Blank, OpenLines, IsLine, Gave, Declined;
    NothingAsked(socket.recvs);
    lines := requestLines;
    while true
      invariant LineBufferOk(io) && NoLf(io.Filled())
      invariant socket.received == lines + io.Filled() && requestLines <= lines
      invariant socket.received + socket.arriving == old(socket.received) + old(socket.arriving)
      invariant |socket.arriving| <= |old(socket.arriving)|
      invariant Gave(old(socket.recvs), socket.recvs)
      invariant OpenLines(lines[behind..])
      decreases |socket.arriving|
    {
      ghost var recvs := socket.recvs;
      var ret, line := TakeLine(socket, io, lines);
      if ret > 0 || io.recvPos == LINE_BUFFER {
        GaveTwice(old(socket.recvs), recvs, socket.recvs);
      } else {
        GaveThenDeclined(old(socket.recvs), recvs, socket.recvs, ret);
      }
      if ret > 0 {
        OneMoreLine(lines, line, behind);
        lines := lines + line;
        if Blank(line) {
          return Complete, lines;
        }
      } else {
        PartialLine(lines[behind..], io.Filled());
        return if ret == -1 then Wait else Gone, lines;
      }
    }
  }

  lemma EmptyHasNoLf()
    ensures NoLf([])
  {
  }
}
