/** The echo server of the ping example: every frame received on a socket is sent back on it. */
module EchoServer {
  import opened Streams
  import opened Transport
  import opened Frames
  import opened PacketReader

  const MAX_PACKET: nat := 3000

  /** What an echo server with length limit `max` may have done on one socket, in terms of the two
      streams alone: it has answered with a prefix of the frames it received. */
  ghost predicate EchoOk(max: nat, received: seq<byte>, accepted: seq<byte>) {
    accepted <= Join(Parse(max, received).frames)
  }

  /** Any amount of work of an echo server on one socket: it may read on and answer more. */
  ghost predicate EchoNext(max: nat, received: seq<byte>, accepted: seq<byte>,
                           received': seq<byte>, accepted': seq<byte>)
  {
    received <= received' && accepted <= accepted' && EchoOk(max, received', accepted')
  }

  /** One connection as the server keeps it between events. */
  ghost predicate Valid(socket: RtSocket, io: SocketIo)
    reads socket, io, io.recvBuffer
  {
    && Conserved(socket, io)
    && BufferOk(io)
    && Parse(MAX_PACKET, socket.received).good
    && Parse(MAX_PACKET, socket.received).rest == io.Filled()
  }

  /** Nothing is lost, invented or reordered: what was accepted, then what is queued, is exactly
      the frames received; and nothing waits unless the library has declined to take it. */
  ghost predicate Conserved(socket: RtSocket, io: SocketIo)
    reads socket, io
  {
    && DeqOk(io.sendDeq)
    && socket.accepted + Unsent(io.sendDeq) == Join(Parse(MAX_PACKET, socket.received).frames)
    && Offered(socket, io)
  }

  /** What is queued has been offered, and the library's last word was no. */
  ghost predicate Offered(socket: RtSocket, io: SocketIo)
    reads socket, io
  {
    io.sendDeq != [] ==> socket.sends != [] && socket.sends[|socket.sends| - 1] <= 0
  }

  /** The conservation law byte by byte, partial frame included, and the echo relation. */
  lemma ConservedBytes(socket: RtSocket, io: SocketIo)
    requires Conserved(socket, io)
    ensures EchoOk(MAX_PACKET, socket.received, socket.accepted)
    ensures Valid(socket, io) ==> socket.accepted + Unsent(io.sendDeq) + io.Filled() == socket.received
  {
  }

  /** A connection that has just come in. */
  lemma FreshIsValid(socket: RtSocket, io: SocketIo)
    requires socket.received == [] && socket.accepted == []
    requires io.sendDeq == [] && io.recvBuffer == null && io.recvPos == 0
    ensures Valid(socket, io)
  {
    assert Parse(MAX_PACKET, []) == Parsed([], [], true);
  }

  lemma EchoQueued(accepted: seq<byte>, deq: seq<SendItem>, frames: seq<Frame>, item: SendItem)
    requires DeqOk(deq) && item.pos == 0 && item.buffer != []
    requires accepted + Unsent(deq) == Join(frames)
    ensures DeqOk(deq + [item])
    ensures accepted + Unsent(deq + [item]) == Join(frames + [item.buffer])
  {
    UnsentSnoc(deq, item);
    JoinSnoc(frames, item.buffer);
    Regroup(accepted, Unsent(deq), item.buffer);
  }

  /** A complete frame in the receive buffer: queue it, give the buffer away, send what goes. */
  method EchoPacket(socket: RtSocket, io: SocketIo, size: nat, ghost frames: seq<Frame>)
    requires io.recvBuffer != null && BufferOk(io) && size == io.recvPos && io.Filled() != []
    requires DeqOk(io.sendDeq) && socket.accepted + Unsent(io.sendDeq) == Join(frames)
    requires Parse(MAX_PACKET, socket.received) == Parsed(frames + [io.Filled()], [], true)
    modifies socket`sendPlan, socket`sends, socket`accepted, io
    ensures Valid(socket, io) && io.recvBuffer == null
    ensures old(socket.accepted) <= socket.accepted
    ensures if io.sendDeq == [] then Gave(old(socket.sends), socket.sends)
            else exists n :: Declined(old(socket.sends), socket.sends, n)
  {
    hide Parse, Join, Unsent;
    var item := SendItem(io.recvBuffer[..size], 0);
    EchoQueued(socket.accepted, io.sendDeq, frames, item);
    io.sendDeq := io.sendDeq + [item];
    io.recvBuffer := null;
    io.recvLen := 0;
    io.recvPos := 0;
    SendQueued(socket, io);
  }

  /** One round of `on_rtsocket_read`. */
  method EchoOne(socket: RtSocket, io: SocketIo) returns (got: Got)
    requires Valid(socket, io)
    modifies socket`sendPlan, socket`sends, socket`accepted, io, io.recvBuffer
    modifies socket`recvPlan, socket`recvs, socket`arriving, socket`received, socket`log
    ensures io.recvBuffer == old(io.recvBuffer) || io.recvBuffer == null || fresh(io.recvBuffer)
    ensures socket.received + socket.arriving == old(socket.received) + old(socket.arriving)
    ensures old(socket.received) <= socket.received && old(socket.accepted) <= socket.accepted
    ensures if got.Invalid? then Conserved(socket, io) && !Parse(MAX_PACKET, socket.received).good
            else Valid(socket, io)
    ensures got.Packet? ==> |socket.arriving| < |old(socket.arriving)|
    ensures got.PeerGone? ==> Declined(old(socket.recvs), socket.recvs, 0)
    ensures got.Waiting? ==> exists n :: n != 0 && Declined(old(socket.recvs), socket.recvs, n)
    ensures got.Packet? || got.Invalid? ==> Gave(old(socket.recvs), socket.recvs)
  {
    hide Parse, Join, Unsent, Gave, Declined;
    if io.recvBuffer == null {
      io.recvLen := RECV_BUFFER;
      io.recvPos := 0;
      io.recvBuffer := new byte[RECV_BUFFER];
    }
    ghost var frames := Parse(MAX_PACKET, socket.received).frames;
    got := ReceivePacket(socket, io, MAX_PACKET, frames);
    if got.Packet? {
      EchoPacket(socket, io, got.size, frames);
    }
  }

  /** `on_rtsocket_read`: decode and echo until the library has nothing more.  The result says that
      the connection was closed and forgotten. */
  method OnRtsocketRead(socket: RtSocket, io: SocketIo) returns (closed: bool)
    requires Valid(socket, io) && socket.live
    modifies socket, io, io.recvBuffer
    ensures socket.received + socket.arriving == old(socket.received) + old(socket.arriving)
    ensures EchoNext(3000, old(socket.received), old(socket.accepted), socket.received, socket.accepted)
    ensures Conserved(socket, io)
    ensures !closed ==> Valid(socket, io) && socket.live
    ensures !closed ==> exists n :: n != 0 && Declined(old(socket.recvs), socket.recvs, n)
    ensures closed ==>
      && !socket.live
      && if Parse(3000, socket.received).good then Declined(old(socket.recvs), socket.recvs, 0)
         else Gave(old(socket.recvs), socket.recvs)
  {
    hide Parse, Join, Unsent, Gave, Declined, Valid;
    NothingAsked(socket.recvs);
    while true
      invariant Valid(socket, io) && socket.live
      invariant io.recvBuffer == old(io.recvBuffer) || io.recvBuffer == null || fresh(io.recvBuffer)
      invariant old(socket.received) <= socket.received && old(socket.accepted) <= socket.accepted
      invariant socket.received + socket.arriving == old(socket.received) + old(socket.arriving)
      invariant Gave(old(socket.recvs), socket.recvs)
      decreases |socket.arriving|
    {
      ghost var recvs := socket.recvs;
      var got := EchoOne(socket, io);
      ValidIsConserved(socket, io);
      match got {
        case Waiting =>
          ghost var n :| n != 0 && Declined(recvs, socket.recvs, n);
          GaveThenDeclined(old(socket.recvs), recvs, socket.recvs, n);
          return false;
        case PeerGone =>
          GaveThenDeclined(old(socket.recvs), recvs, socket.recvs, 0);
          socket.Close();
          return true;
        case Invalid =>
          GaveTwice(old(socket.recvs), recvs, socket.recvs);
          socket.Close();
          return true;
        case Packet(_) =>
          GaveTwice(old(socket.recvs), recvs, socket.recvs);
      }
    }
  }

  lemma ValidIsConserved(socket: RtSocket, io: SocketIo)
    ensures Valid(socket, io) ==> Conserved(socket, io) && Parse(MAX_PACKET, socket.received).good
    ensures Conserved(socket, io) ==> EchoOk(MAX_PACKET, socket.received, socket.accepted)
  {
  }

  /** `on_rtsocket_write`. */
  method OnRtsocketWrite(socket: RtSocket, io: SocketIo)
    requires Valid(socket, io)
    modifies socket`sendPlan, socket`sends, socket`accepted, io`sendDeq
    ensures Valid(socket, io)
    ensures EchoNext(MAX_PACKET, old(socket.received), old(socket.accepted), socket.received, socket.accepted)
    ensures if io.sendDeq == [] then Gave(old(socket.sends), socket.sends)
            else exists n :: Declined(old(socket.sends), socket.sends, n)
  {
    hide Parse, Join, Unsent;
    SendQueued(socket, io);
  }
}
