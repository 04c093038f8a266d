/** The TCP twin of the echo server: one `session` of asynchronous reads and writes. */
module TcpEcho {
  import opened Streams
  import opened Frames
  import opened EchoServer
  import opened PacketReader
  import opened Transport

  const MAX_LENGTH: nat := 4096

  /** `async_read` of `size` bytes to `offset`. */
  datatype ReadOp = ReadOp(offset: nat, size: nat)

  /** A stream socket of the asynchronous library.  At most one read and one write may be
      outstanding; a read completes with all it asked for or fails with less. */
  class AsyncSocket {
    var reading: Option<ReadOp>
    var writing: Option<seq<byte>>
    ghost var received: seq<byte>     // by reads that have completed
    ghost var written: seq<byte>      // by writes that have completed

    constructor ()
      ensures reading.None? && writing.None? && received == [] && written == []
    {
      reading, writing, received, written := None, None, [], [];
    }

    method AsyncRead(offset: nat, size: nat)
      requires reading.None?
      modifies `reading
      ensures reading == Some(ReadOp(offset, size))
    {
      reading := Some(ReadOp(offset, size));
    }

    method AsyncWrite(buffer: seq<byte>)
      requires writing.None?
      modifies `writing
      ensures writing == Some(buffer)
    {
      writing := Some(buffer);
    }

    ghost predicate ReadEnds(error: bool, chunk: seq<byte>)
      reads this
    {
      reading.Some? && if error then |chunk| < reading.value.size else |chunk| == reading.value.size
    }

    /** The library completes the read, just before it calls the handler. */
    method EndRead(buffer: array<byte>, chunk: seq<byte>)
      requires reading.Some? && |chunk| <= reading.value.size && reading.value.offset + |chunk| <= buffer.Length
      modifies buffer, `reading, `received
      ensures reading.None? && received == old(received) + chunk
      ensures var at := old(reading).value.offset;
              buffer[..at + |chunk|] == old(buffer[..at]) + chunk
    {
      var at := reading.value.offset;
      forall i | 0 <= i < |chunk| {
        buffer[at + i] := chunk[i];
      }
      reading := None;
      received := received + chunk;
    }

    /** The library completes the write; `size` bytes of its buffer are on the wire. */
    method EndWrite(size: nat)
      requires writing.Some? && size <= |writing.value|
      modifies `writing, `written
      ensures writing.None? && written == old(written) + old(writing).value[..size]
    {
      written := written + writing.value[..size];
      writing := None;
    }
  }

  class Session {
    const socket: AsyncSocket
    const data: array<byte>
    var readBytes: nat
    var sending: bool
    var sendDeq: seq<seq<byte>>
    ghost var frames: seq<Frame>      // echoed so far
    ghost var partial: seq<byte>      // of the frame being read
    ghost var broken: bool            // a write has failed

    ghost predicate Valid()
      reads this, socket, data
    {
      Sending() && Queued() && Receiving()
    }

    /** `sending_` holds exactly while something is queued, and then one write is outstanding, of
        the string in front, unless a write has failed. */
    ghost predicate Sending()
      reads this, socket
    {
      && (sending <==> sendDeq != []) && (broken ==> sending)
      && (forall i :: 0 <= i < |sendDeq| ==> sendDeq[i] != [])
      && socket.writing == if sending && !broken then Some(sendDeq[0]) else None
    }

    /** What is written, then what is queued, is every frame received, and nothing else was
        received but the beginning of the next one. */
    ghost predicate Queued()
      reads this, socket
    {
      && socket.written + Join(sendDeq) == Join(frames)
      && socket.received == Join(frames) + partial
    }

    /** The outstanding read is for the length, or for what the length announces; there is none
        only after an error or a bad length. */
    ghost predicate Receiving()
      reads this, socket, data
    {
      && data.Length == MAX_LENGTH
      && FramesOk(MAX_LENGTH, frames)
      && (socket.reading.Some? && partial == [] ==> socket.reading.value == ReadOp(0, 4))
      && (socket.reading.Some? && partial != [] ==>
            && |partial| == 4 && partial == data[..4] && 4 <= readBytes == Le32(partial) <= MAX_LENGTH
            && socket.reading.value == ReadOp(4, readBytes - 4))
      && (socket.reading.None? ==> Partial(MAX_LENGTH, partial) || BadLength(MAX_LENGTH, partial))
    }

    constructor (socket: AsyncSocket)
      requires socket.reading.None? && socket.writing.None? && socket.received == [] && socket.written == []
      ensures Valid() && this.socket == socket && fresh(data) && sendDeq == [] && !broken
    {
      this.socket := socket;
      data := new byte[MAX_LENGTH];
      readBytes, sending, sendDeq, frames, partial, broken := 0, false, [], [], [], false;
    }

    /** `start`. */
    method Start()
      requires Valid() && partial == [] && socket.reading.None?
      modifies socket`reading
      ensures Valid() && socket.reading.Some?
    {
      socket.AsyncRead(0, 4);
    }

    /** `handle_read_head`. */
    method HandleReadHead(error: bool, chunk: seq<byte>)
      requires Valid() && socket.ReadEnds(error, chunk) && partial == []
      modifies this`readBytes, this`partial, socket`reading, socket`received, data
      ensures Valid() && socket.received == old(socket.received) + chunk
      ensures socket.reading.Some? <==> !error && !BadLength(4096, chunk)
    {
      hide Join;
      assert socket.received == Join(frames) + [] == Join(frames);
      socket.EndRead(data, chunk);
      partial := chunk;
      if error || |chunk| != 4 {
        return;
      }
      assert data[..4] == chunk;
      var len := Le32(data[..4]);
      if len > MAX_LENGTH || len < 4 {
        return;
      }
      readBytes := len;
      socket.AsyncRead(4, len - 4);
    }

    /** `handle_read_body`. */
    method HandleReadBody(error: bool, chunk: seq<byte>)
      requires Valid() && socket.ReadEnds(error, chunk) && partial != []
      modifies this`sending, this`sendDeq, this`frames, this`partial, data
      modifies socket`reading, socket`received, socket`writing
      ensures Valid() && socket.received == old(socket.received) + chunk
      ensures !error ==> frames == old(frames) + [old(partial) + chunk] && socket.reading == Some(ReadOp(0, 4))
      ensures error ==> frames == old(frames) && sendDeq == old(sendDeq) && socket.reading.None?
    {
      hide Join;
      socket.EndRead(data, chunk);
      ghost var f := partial + chunk;
      assert f[..4] == partial && Le32(f) == Le32(f[..4]);
      Regroup(Join(frames), partial, chunk);
      if error {
        partial := f;
        return;
      }
      assert data[..4 + |chunk|] == f && FrameOk(MAX_LENGTH, f);
      JoinSnoc(frames, f);
      JoinSnoc(sendDeq, f);
      Regroup(socket.written, Join(sendDeq), f);
      sendDeq := sendDeq + [data[..|chunk| + 4]];
      frames := frames + [f];
      assert forall i :: 0 <= i < |frames| ==> FrameOk(MAX_LENGTH, frames[i]);
      partial := [];
      assert Join(frames) + [] == Join(frames);
      if !sending {
        sending := true;
        socket.AsyncWrite(sendDeq[0]);
      }
      socket.AsyncRead(0, 4);
    }

    /** `handle_write`: `size` bytes of the string in front are gone. */
    method HandleWrite(error: bool, size: nat)
      requires Valid() && socket.writing.Some? && size <= |socket.writing.value|
      modifies this`sending, this`sendDeq, this`broken, socket`writing, socket`written
      ensures Valid() && broken == error
      ensures socket.written == old(socket.written) + old(socket.writing).value[..if error then 0 else size]
      ensures !error && size == |old(socket.writing).value| ==> sendDeq == old(sendDeq)[1..]
      ensures error || size < |old(socket.writing).value| ==> |sendDeq| == |old(sendDeq)|
    {
      hide Join;
      WriteMoves(socket.written, sendDeq, if error then 0 else size);
      if error {
        socket.EndWrite(0);
        broken := true;
        return;
      }
      socket.EndWrite(size);
      sendDeq := [sendDeq[0][size..]] + sendDeq[1..];
      if |sendDeq[0]| == 0 {
        sendDeq := sendDeq[1..];
      }
      if |sendDeq| > 0 {
        socket.AsyncWrite(sendDeq[0]);
      } else {
        sending := false;
      }
    }
  }

  /** Writing `size` bytes of the front string moves them from the queue to the wire. */
  lemma WriteMoves(written: seq<byte>, deq: seq<seq<byte>>, size: nat)
    requires deq != [] && size <= |deq[0]|
    ensures (written + deq[0][..size]) + Join([deq[0][size..]] + deq[1..]) == written + Join(deq)
    ensures size == |deq[0]| ==> (written + deq[0][..size]) + Join(deq[1..]) == written + Join(deq)
    ensures size == 0 ==> written + deq[0][..size] == written
    ensures ([deq[0][size..]] + deq[1..])[1..] == deq[1..]
  {
    var rest := [deq[0][size..]] + deq[1..];
    assert rest[1..] == deq[1..];
    assert Join(rest) == deq[0][size..] + Join(deq[1..]) && Join(deq) == deq[0] + Join(deq[1..]);
    hide Join;
    Move(written, deq[0], size, Join(deq[1..]));
  }

  lemma Move(written: seq<byte>, front: seq<byte>, size: nat, behind: seq<byte>)
    requires size <= |front|
    ensures (written + front[..size]) + (front[size..] + behind) == written + (front + behind)
    ensures size == |front| ==> (written + front[..size]) + behind == written + (front + behind)
    ensures size == 0 ==> written + front[..size] == written
  {
    assert front == front[..size] + front[size..];
  }

  /** The session between events: every byte received is written, queued, or in the frame being
      read; the frames echoed are the parse of the stream, short only of a frame that ends with its
      length; and whoever talks to it sees an echo server with limit 4096. */
  lemma SessionEchoes(s: Session)
    requires s.Valid()
    ensures s.socket.written + Join(s.sendDeq) + s.partial == s.socket.received
    ensures s.sending <==> s.sendDeq != []
    ensures !s.broken ==> (s.sending <==> s.socket.writing.Some?)
    ensures Parse(4096, s.socket.received).frames
         == s.frames + if FrameOk(4096, s.partial) then [s.partial] else []
    ensures EchoOk(4096, s.socket.received, s.socket.written)
  {
    hide Parse, Join;
    ParseKnown(MAX_LENGTH, s.frames, s.partial);
    JoinMonotone(s.frames, Parse(MAX_LENGTH, s.socket.received).frames);
    WritesAreFrames(s.socket.written, Join(s.sendDeq), Join(s.frames),
                    Join(Parse(MAX_LENGTH, s.socket.received).frames));
  }

  lemma WritesAreFrames(written: seq<byte>, queued: seq<byte>, echoed: seq<byte>, frames: seq<byte>)
    requires written + queued == echoed && echoed <= frames
    ensures written <= frames
  {
  }
}
