/** The incremental frame decoder shared by the C++ programs: it fills a buffer up to the length
    field, then up to the length. */
module PacketReader {
  import opened Streams
  import opened Transport
  import opened Frames

  const RECV_BUFFER: nat := 4096

  ghost predicate BufferOk(io: SocketIo)
    reads io
  {
    if io.recvBuffer == null then io.recvPos == 0
    else io.recvBuffer.Length == io.recvLen == RECV_BUFFER && io.recvPos <= RECV_BUFFER
  }

  /** Fill the receive buffer up to `goal` bytes.  The result is the `rt_recv` value that stopped
      it short, or 1 when the goal is reached.  `base` is the part of the stream before the buffer. */
  method Fill(socket: RtSocket, io: SocketIo, goal: nat, ghost base: seq<byte>) returns (ret: int)
    requires io.recvBuffer != null && BufferOk(io) && io.recvPos <= goal <= RECV_BUFFER
    requires socket.received == base + io.Filled()
    modifies socket`recvPlan, socket`recvs, socket`arriving, socket`received, socket`log, io`recvPos, io.recvBuffer
    ensures BufferOk(io) && io.recvPos <= goal
    ensures socket.received == base + io.Filled() && old(io.Filled()) <= io.Filled()
    ensures socket.received + socket.arriving == old(socket.received) + old(socket.arriving)
    ensures if io.recvPos == goal then ret == 1 && Gave(old(socket.recvs), socket.recvs)
            else Declined(old(socket.recvs), socket.recvs, ret)
  {
    while io.recvPos < goal
      invariant BufferOk(io) && io.recvPos <= goal
      invariant socket.received == base + io.Filled() && old(io.Filled()) <= io.Filled()
      invariant socket.received + socket.arriving == old(socket.received) + old(socket.arriving)
      invariant Gave(old(socket.recvs), socket.recvs)
      decreases |socket.arriving|
    {
      ghost var filled, got, recvs := io.Filled(), socket.received, socket.recvs;
      var bytes, chunk := RecvMore(socket, io, goal - io.recvPos);
      GaveMore(old(socket.recvs), recvs, bytes);
      if bytes <= 0 {
        return bytes;
      }
      Regroup(base, filled, chunk);
      Regroup(got, chunk, socket.arriving);
    }
    ret := 1;
  }

  datatype Got = Waiting | PeerGone | Invalid | Packet(size: nat)

  /** What the parse of a stream says once its unfinished part is known. */
  lemma ParseKnown(max: nat, frames: seq<Frame>, filled: seq<byte>)
    requires FramesOk(max, frames)
    ensures Partial(max, filled) ==> Parse(max, Join(frames) + filled) == Parsed(frames, filled, true)
    ensures BadLength(max, filled) ==> Parse(max, Join(frames) + filled) == Parsed(frames, filled, false)
    ensures FrameOk(max, filled) ==> Parse(max, Join(frames) + filled) == Parsed(frames + [filled], [], true)
  {
    if Partial(max, filled) || BadLength(max, filled) {
      ParseUnique(max, frames, filled);
    } else if FrameOk(max, filled) {
      JoinSnoc(frames, filled);
      ParseUnique(max, frames + [filled], []);
      assert Join(frames) + filled == Join(frames + [filled]) + [];
    }
  }

  /** One round of the decoder.  `frames` is what the stream has yielded so far; the answer is what
      the parse of the whole stream says comes next. */
  method ReceivePacket(socket: RtSocket, io: SocketIo, max: nat, ghost frames: seq<Frame>) returns (got: Got)
    requires io.recvBuffer != null && BufferOk(io) && max <= RECV_BUFFER
    requires Parse(max, socket.received) == Parsed(frames, io.Filled(), true)
    modifies socket`recvPlan, socket`recvs, socket`arriving, socket`received, socket`log, io`recvPos, io.recvBuffer
    ensures BufferOk(io)
    ensures socket.received + socket.arriving == old(socket.received) + old(socket.arriving)
    ensures old(socket.received) <= socket.received
    ensures got.Waiting? || got.PeerGone? ==> Parse(max, socket.received) == Parsed(frames, io.Filled(), true)
    ensures got.PeerGone? ==> Declined(old(socket.recvs), socket.recvs, 0)
    ensures got.Waiting? ==> exists n :: n != 0 && Declined(old(socket.recvs), socket.recvs, n)
    ensures got.Packet? || got.Invalid? ==> Gave(old(socket.recvs), socket.recvs)
    ensures got.Invalid? ==> Parse(max, socket.received) == Parsed(frames, io.Filled(), false)
    ensures got.Packet? ==>
      && got.size == io.recvPos
      && FrameOk(max, io.Filled())
      && Parse(max, socket.received) == Parsed(frames + [io.Filled()], [], true)
      && |socket.arriving| < |old(socket.arriving)|
  {
    hide Parse, Join, Gave, Declined;
    NothingAsked(socket.recvs);
    ghost var base, start := Join(frames), io.Filled();
    var ret := 1;
    if io.recvPos < 4 {
      ret := Fill(socket, io, 4, base);
    }
    if ret == 1 {
      var packetSize := Le32(io.recvBuffer[..4]);
      ghost var filled := io.Filled();
      assert io.recvBuffer[..4] == filled[..4];
      if packetSize < 4 || packetSize > max {
        ParseKnown(max, frames, io.Filled());
        return Invalid;
      }
      ghost var recvs := socket.recvs;
      ret := Fill(socket, io, packetSize, base);
      if ret == 1 {
        GaveTwice(old(socket.recvs), recvs, socket.recvs);
      } else {
        GaveThenDeclined(old(socket.recvs), recvs, socket.recvs, ret);
      }
      assert io.Filled()[..4] == filled[..4];
      ParseKnown(max, frames, io.Filled());
      if ret == 1 {
        return Packet(packetSize);
      }
    } else {
      ParseKnown(max, frames, io.Filled());
    }
    got := if ret == 0 then PeerGone else Waiting;
  }
}
