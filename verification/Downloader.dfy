/** The downloading side: a receiver that reads the reply head line by line and then the body in
    blocks, and a writer thread that takes the blocks from a shared queue to the disk. */
module Downloader {
  import opened Streams
  import opened HttpText

  const BODY_BUFFER: nat := 256 * 1024

  /** `write_file_item`; the end mark is the item with no data. */
  datatype WriteItem = Data(bytes: seq<byte>) | EndMark

  datatype WriterState = NotStarted | Running | Complete | Ended | Failed

  /** `rtsocket_client_context`.  `held` is the item the writer has taken off the queue and not yet
      written.  `body` is history: every body byte received. */
  datatype Peer = Peer(
    lines: seq<byte>, buf: seq<byte>, fileSize: nat, downloaded: nat, live: bool,
    queue: seq<WriteItem>, held: Option<WriteItem>, writer: WriterState, writePos: nat, disk: seq<byte>,
    body: seq<byte>)

  const NEW_PEER := Peer([], [], 0, 0, true, [], None, NotStarted, 0, [], [])

  /** What the HTTP library makes of a reply head: the announced size if it is a success. */
  type Http = seq<byte> -> Option<nat>

  /** How many bytes the receiver asks for next. */
  function Want(p: Peer): int {
    if p.fileSize == 0 then 1 else BODY_BUFFER - |p.buf|
  }

  /** Everything received so far. */
  function Received(p: Peer): seq<byte> {
    p.lines + (if p.fileSize == 0 then p.buf else p.body)
  }

  /** `on_rtsocket_read`, one successful `rt_recv`. */
  function OnChunk(http: Http, p: Peer, chunk: seq<byte>): Peer
    requires 0 < |chunk| <= Want(p)
  {
    if p.fileSize == 0 then OnHeadByte(http, p, chunk[0]) else OnBodyChunk(p, chunk)
  }

  function OnHeadByte(http: Http, p: Peer, b: byte): Peer {
    var buf := p.buf + [b];
    if b == LF then
      var q := p.(lines := p.lines + buf, buf := []);
      if !Blank(buf) then q
      else
        match http(q.lines)
        case Some(size) => q.(fileSize := size, writer := Running)
        case None => q.(live := false)
    else if |buf| >= LINE_BUFFER then p.(buf := buf, live := false)
    else p.(buf := buf)
  }

  function OnBodyChunk(p: Peer, chunk: seq<byte>): Peer {
    var q := p.(downloaded := p.downloaded + |chunk|, buf := p.buf + chunk, body := p.body + chunk);
    if |q.buf| == BODY_BUFFER || q.downloaded == q.fileSize then q.(queue := q.queue + [Data(q.buf)], buf := [])
    else q
  }

  /** `on_rtsocket_read` when the connection is closed or broken. */
  function OnGone(p: Peer): Peer {
    if p.fileSize == 0 then p.(live := false)
    else p.(live := false, queue := p.queue + [EndMark])
  }

  /** `on_rtsocket_error`: the connection is closed, and nobody tells the writer. */
  function OnError(p: Peer): Peer { p.(live := false) }

  /** `thread_write_file_proc`, under the lock: take the front item. */
  function WriterTakes(p: Peer): Peer
    requires p.writer == Running && p.held.None? && p.queue != []
  {
    p.(held := Some(p.queue[0]), queue := p.queue[1..])
  }

  /** `fseek` to `pos` and `fwrite`. */
  function WriteAt(disk: seq<byte>, pos: nat, data: seq<byte>): seq<byte>
    requires pos <= |disk|
  {
    disk[..pos] + data + if pos + |data| <= |disk| then disk[pos + |data|..] else []
  }

  /** `thread_write_file_proc`, outside the lock: write the item, of which the disk takes `n` bytes. */
  function WriterWrites(p: Peer, n: nat): Peer
    requires p.writer == Running && p.held.Some? && p.writePos <= |p.disk|
  {
    match p.held.value
    case EndMark => p.(writer := Ended, held := None)
    case Data(bytes) =>
      if n < |bytes| then p.(disk := WriteAt(p.disk, p.writePos, bytes[..n]), writer := Failed)
      else
        var q := p.(disk := WriteAt(p.disk, p.writePos, bytes), writePos := p.writePos + |bytes|, held := None);
        if q.writePos == q.fileSize then q.(writer := Complete) else q
  }

  // What holds between any two steps.

  function ItemBytes(item: WriteItem): seq<byte> { if item.Data? then item.bytes else [] }

  function Pending(queue: seq<WriteItem>): seq<byte> {
    if queue == [] then [] else ItemBytes(queue[0]) + Pending(queue[1..])
  }

  function HeldBytes(p: Peer): seq<byte> { if p.held.Some? then ItemBytes(p.held.value) else [] }

  lemma {:induction false} PendingSnoc(queue: seq<WriteItem>, item: WriteItem)
    ensures Pending(queue + [item]) == Pending(queue) + ItemBytes(item)
  {
    hide ItemBytes;
    if queue == [] {
      assert queue + [item] == [item];
      assert Pending([item]) == ItemBytes(item) + Pending([]);
    } else {
      PendingSnoc(queue[1..], item);
      assert (queue + [item])[1..] == queue[1..] + [item];
    }
  }

  /** While the head is read: whole lines so far, none of them blank, and the start of the next; or
      a complete head, which was not a success, or announced nothing. */
  ghost predicate HeadInv(http: Http, p: Peer) {
    && p.queue == [] && p.held.None? && p.disk == [] && p.writePos == 0 && p.body == [] && p.downloaded == 0
    && NoLf(p.buf) && |p.buf| <= LINE_BUFFER
    && (p.lines == [] || p.lines[|p.lines| - 1] == LF)
    && (p.writer == NotStarted || p.writer == Running)
    && (p.writer == NotStarted && p.live ==> NoBlank(p.lines))
    && (!NoBlank(p.lines) ==>
          && HeadEnds(p.lines, |p.lines|) && p.buf == []
          && http(p.lines) == if p.writer == Running then Some(0) else None)
    && (p.writer == Running ==> !NoBlank(p.lines))
  }

  /** While the body is read, for every interleaving of receiver and writer: body bytes received
      are the disk, the item in the writer's hands, the queued items and the receive buffer. */
  ghost predicate BodyInv(http: Http, p: Peer) {
    && HeadEnds(p.lines, |p.lines|)
    && http(p.lines) == Some(p.fileSize)
    && p.downloaded == |p.body| && |p.buf| < BODY_BUFFER
    && (p.downloaded == p.fileSize ==> p.buf == [])
    && p.writer != NotStarted
    && p.disk <= p.body
    && p.writePos <= |p.disk|
    && (forall i :: 0 <= i < |p.queue| && p.queue[i].EndMark? ==> i == |p.queue| - 1 && !p.live)
    && (p.held == Some(EndMark) || p.writer == Ended ==> p.queue == [] && !p.live)
    && (p.writer == Complete || p.writer == Ended ==> p.held.None?)
    && (p.writer != Failed ==> |p.disk| == p.writePos && p.body == p.disk + HeldBytes(p) + Pending(p.queue) + p.buf)
    && (p.writer == Complete <==> p.writePos == p.fileSize)
  }

  ghost predicate PeerInv(http: Http, p: Peer) {
    if p.fileSize == 0 then HeadInv(http, p) else BodyInv(http, p)
  }

  /** A reply that announces no content leaves the receiver waiting for another head. */
  predicate Stranded(p: Peer) { p.fileSize == 0 && p.writer != NotStarted }

  /** A byte inside a line. */
  lemma MidLineKeeps(http: Http, p: Peer, b: byte)
    requires HeadInv(http, p) && p.fileSize == 0 && p.live && |p.buf| < LINE_BUFFER && !Stranded(p) && b != LF
    ensures HeadInv(http, OnHeadByte(http, p, b)) && OnHeadByte(http, p, b).fileSize == 0
  {
    hide HeadEnds, NoBlank, BlankAt;
  }

  /** What the end of a line makes of the lines so far. */
  lemma LineMeans(p: Peer)
    requires NoBlank(p.lines) && NoLf(p.buf) && (p.lines == [] || p.lines[|p.lines| - 1] == LF)
    ensures var buf := p.buf + [LF];
            var lines := p.lines + buf;
      && lines[|lines| - 1] == LF
      && if Blank(buf) then HeadEnds(lines, |lines|) && !NoBlank(lines) else NoBlank(lines)
  {
    var buf := p.buf + [LF];
    assert buf[..|buf| - 1] == p.buf;
    LineEnds(p.lines, buf);
  }

  lemma LineEndKeeps(http: Http, p: Peer)
    requires HeadInv(http, p) && p.fileSize == 0 && p.live && !Stranded(p)
    ensures PeerInv(http, OnHeadByte(http, p, LF))
  {
    LineMeans(p);
    hide HeadEnds, NoBlank, BlankAt, Blank;
    assert [] == [] + [] + Pending([]) + [];
  }

  lemma HeadByteKeeps(http: Http, p: Peer, b: byte)
    requires HeadInv(http, p) && p.fileSize == 0 && p.live && |p.buf| < LINE_BUFFER && !Stranded(p)
    ensures PeerInv(http, OnHeadByte(http, p, b))
    ensures Received(OnHeadByte(http, p, b)) == Received(p) + [b]
    ensures var q := OnHeadByte(http, p, b); q.fileSize == 0 && q.live ==> |q.buf| < LINE_BUFFER
  {
    if b == LF {
      LineEndKeeps(http, p);
    } else {
      MidLineKeeps(http, p, b);
    }
    assert p.body == [];
    hide HeadInv, BodyInv;
    assert p.lines + (p.buf + [b]) == (p.lines + p.buf) + [b];
  }

  lemma BodyChunkKeeps(http: Http, p: Peer, chunk: seq<byte>)
    requires BodyInv(http, p) && p.fileSize > 0 && p.live && 0 < |chunk| <= Want(p)
    ensures BodyInv(http, OnBodyChunk(p, chunk))
    ensures Received(OnBodyChunk(p, chunk)) == Received(p) + chunk
  {
    hide HeadEnds, Pending;
    var buf := p.buf + chunk;
    PendingSnoc(p.queue, Data(buf));
    assert p.lines + (p.body + chunk) == p.lines + p.body + chunk;
    if p.writer != Failed {
      MoreBody(p.disk + HeldBytes(p), Pending(p.queue), p.buf, chunk);
    }
  }

  lemma MoreBody(front: seq<byte>, queued: seq<byte>, buf: seq<byte>, chunk: seq<byte>)
    ensures front + queued + buf + chunk == front + queued + (buf + chunk)
    ensures front + queued + buf + chunk == front + (queued + (buf + chunk)) + []
  {
  }

  lemma GoneKeeps(http: Http, p: Peer)
    requires PeerInv(http, p) && p.live
    ensures PeerInv(http, OnGone(p)) && !OnGone(p).live
    ensures Received(OnGone(p)) == Received(p)
  {
    hide HeadEnds, NoBlank;
    PendingSnoc(p.queue, EndMark);
    assert Pending(p.queue) + [] == Pending(p.queue);
  }

  lemma ErrorKeeps(http: Http, p: Peer)
    requires PeerInv(http, p) && p.live
    ensures PeerInv(http, OnError(p)) && Received(OnError(p)) == Received(p)
  {
    hide HeadEnds, NoBlank, Pending;
  }

  lemma TakesKeeps(http: Http, p: Peer)
    requires PeerInv(http, p) && p.writer == Running && p.held.None? && p.queue != []
    ensures PeerInv(http, WriterTakes(p))
  {
    hide HeadEnds, NoBlank;
    assert p.disk + HeldBytes(p) == p.disk;
    var q := WriterTakes(p);
    assert p.disk + (HeldBytes(q) + Pending(q.queue)) == p.disk + HeldBytes(q) + Pending(q.queue);
    assert forall i :: 0 <= i < |q.queue| ==> q.queue[i] == p.queue[i + 1];
  }

  /** The body, seen from the item in the writer's hands. */
  lemma BodyFromHeld(http: Http, p: Peer, bytes: seq<byte>)
    requires BodyInv(http, p) && p.writer == Running && p.held == Some(Data(bytes))
    ensures var rest := Pending(p.queue) + p.buf;
      && p.disk[..p.writePos] == p.disk && |p.disk| == p.writePos
      && p.body == (p.disk + bytes) + rest
      && p.disk + bytes <= p.body
      && p.body == (p.disk + bytes) + [] + Pending(p.queue) + p.buf
  {
    hide HeadEnds, Pending;
    var rest := Pending(p.queue) + p.buf;
    assert p.disk + bytes + Pending(p.queue) + p.buf == (p.disk + bytes) + rest;
    assert (p.disk + bytes) + [] == p.disk + bytes;
  }

  lemma PartIsPrefix(disk: seq<byte>, bytes: seq<byte>, body: seq<byte>, n: nat)
    requires disk + bytes <= body && n <= |bytes|
    ensures disk + bytes[..n] <= body
  {
    assert disk + bytes[..n] == (disk + bytes)[..|disk| + n];
  }

  lemma WriterStops(http: Http, p: Peer, n: nat)
    requires BodyInv(http, p) && p.writer == Running && p.held == Some(EndMark)
    ensures BodyInv(http, WriterWrites(p, n))
  {
    hide HeadEnds, Pending;
    assert p.disk + HeldBytes(p) == p.disk + [];
  }

  lemma WriterFails(http: Http, p: Peer, n: nat)
    requires BodyInv(http, p) && p.writer == Running && p.held.Some? && p.held.value.Data? && n < |p.held.value.bytes|
    ensures BodyInv(http, WriterWrites(p, n)) && p.disk <= WriterWrites(p, n).disk
  {
    hide HeadEnds, Pending;
    BodyFromHeld(http, p, p.held.value.bytes);
    PartIsPrefix(p.disk, p.held.value.bytes, p.body, n);
  }

  lemma WriterAppends(http: Http, p: Peer, n: nat)
    requires BodyInv(http, p) && p.writer == Running && p.held.Some? && p.held.value.Data? && n >= |p.held.value.bytes|
    ensures BodyInv(http, WriterWrites(p, n)) && p.disk <= WriterWrites(p, n).disk
  {
    hide HeadEnds, Pending;
    BodyFromHeld(http, p, p.held.value.bytes);
  }

  /** Writing appends: the file on disk only grows, along the body. */
  lemma WritesKeeps(http: Http, p: Peer, n: nat)
    requires PeerInv(http, p) && p.writer == Running && p.held.Some?
    ensures PeerInv(http, WriterWrites(p, n))
    ensures p.disk <= WriterWrites(p, n).disk
  {
    hide HeadEnds, NoBlank, Pending;
    assert BodyInv(http, p);
    hide BodyInv;
    if p.held.value.EndMark? {
      WriterStops(http, p, n);
    } else if n < |p.held.value.bytes| {
      WriterFails(http, p, n);
    } else {
      WriterAppends(http, p, n);
    }
  }

  // What the writer's final states mean.

  /** The end mark is seen only after everything queued before it has been written: all that was
      received is on disk, but for a last block that was never complete. */
  lemma EndMarkMeansWritten(http: Http, p: Peer)
    requires PeerInv(http, p) && p.writer == Ended
    ensures p.disk + p.buf == p.body
  {
    assert p.disk + [] + Pending([]) + p.buf == p.disk + p.buf;
  }

  /** While no more than the announced size arrives, the writer declares the download complete
      exactly when that many bytes have arrived and been written, and then the disk holds them all. */
  lemma CompleteMeansWhole(http: Http, p: Peer)
    requires PeerInv(http, p) && p.fileSize > 0 && |p.body| <= p.fileSize
    ensures p.writer == Complete <==>
              |p.body| == p.fileSize && p.writer != Failed && p.held.None? && Pending(p.queue) == []
    ensures p.writer == Complete ==> p.disk == p.body
  {
    hide HeadEnds;
    if p.writer == Complete
       || (|p.body| == p.fileSize && p.writer != Failed && p.held.None? && Pending(p.queue) == []) {
      assert p.body == p.disk + (Pending(p.queue) + p.buf);
    }
  }
}
