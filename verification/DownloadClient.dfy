/** One download connection of the file server: the handlers of `download_file_client` as functions
    of its fields.  They never touch the file themselves: they queue operations for the file thread. */
module DownloadClient {
  import opened Streams
  import opened Transport
  import opened HttpText

  type ClientId = nat
  type Path = string

  /** The bytes of a successful read. */
  type Block = b: seq<byte> | b != [] witness [0]

  const READ_BLOCK: nat := 2 * 1024 * 1024
  const PIPELINE: nat := 3

  /** `async_file_op`.  A file handle is named by its path: the server keeps one handle object per
      path and never drops it.  A close may carry a null handle. */
  datatype FileOp =
    | Open(owner: ClientId, path: Path)
    | Read(owner: ClientId, path: Path, offset: nat, size: nat)
    | Close(owner: ClientId, handle: Option<Path>)

  /** What the file thread posts back: `handle_open_file_complete`, `handle_read_file_complete`. */
  datatype Posted =
    | OpenDone(owner: ClientId, handle: Option<Path>, size: nat)
    | ReadDone(owner: ClientId, data: Option<Block>)

  /** The fields of `download_file_client`; `live` is `rttp_socket_ != 0`.  The last five record
      history: the bytes `rt_send` took, the request, the reply head, and whether the connection
      was closed while its open was still under way. */
  datatype Client = Client(
    reqPos: nat, curPos: nat, reading: bool, handle: Option<Path>, fileSize: nat,
    deq: SendDeq, waitingClose: bool, live: bool,
    accepted: seq<byte>, requested: bool, path: Path, started: bool, head: seq<byte>, abandoned: bool)

  function NewClient(): Client {
    Client(0, 0, false, None, 0, [], false, true, [], false, "", false, [], false)
  }

  /** A handler's effect: the new fields, the operations it queues, the rest of the send script. */
  datatype Outcome = Outcome(cl: Client, ops: seq<FileOp>, plan: seq<int>)

  function Push(cl: Client, data: Block): Client
  {
    cl.(deq := cl.deq + [SendItem(data, 0)])
  }

  /** `rtsocket_send_data` on the client's own queue. */
  function Sent(cl: Client, plan: seq<int>): Client
  {
    var f := Flush(cl.live, cl.deq, plan);
    cl.(deq := f.deq, accepted := cl.accepted + f.sent)
  }

  function PlanLeft(cl: Client, plan: seq<int>): seq<int>
  {
    Flush(cl.live, cl.deq, plan).plan
  }

  /** `async_read_file`. */
  function StartRead(c: ClientId, cl: Client, plan: seq<int>): Outcome {
    if cl.handle.None? || cl.reading || cl.curPos >= cl.fileSize then Outcome(cl, [], plan)
    else Outcome(cl.(reading := true), [Read(c, cl.handle.value, cl.curPos, BlockSize(cl))], plan)
  }

  function BlockSize(cl: Client): int { Min(READ_BLOCK, cl.fileSize - cl.curPos) }

  /** `close`. */
  function CloseClient(c: ClientId, cl: Client, plan: seq<int>): Outcome {
    var closed := cl.(handle := None, live := false,
                      abandoned := cl.abandoned || (cl.live && cl.requested && !cl.started && !cl.waitingClose));
    Outcome(closed, if cl.handle.Some? then [Close(c, cl.handle)] else [], plan)
  }

  /** The shared tail of the write handlers: finish, or keep the pipeline fed. */
  predicate Finished(cl: Client) {
    cl.fileSize > 0 && cl.curPos == cl.fileSize && cl.deq == []
  }

  function Continue(c: ClientId, cl: Client, plan: seq<int>): Outcome {
    if Finished(cl) then CloseClient(c, cl, plan)
    else if |cl.deq| < PIPELINE then StartRead(c, cl, plan)
    else Outcome(cl, [], plan)
  }

  /** `handle_read_file_complete`. */
  function OnReadDone(c: ClientId, cl: Client, data: Option<Block>, plan: seq<int>): Outcome
  {
    match data
    case Some(bytes) =>
      var queued := Push(cl.(reading := false), bytes);
      var sent := Sent(queued, plan);
      Continue(c, sent.(curPos := sent.curPos + |bytes|), PlanLeft(queued, plan))
    case None =>
      var o := CloseClient(c, cl.(reading := false, handle := None), plan);
      o.(ops := [Close(c, cl.handle)])
  }

  /** `handle_open_file_complete`. */
  function OnOpenDone(c: ClientId, cl: Client, handle: Option<Path>, size: nat, plan: seq<int>): Outcome
  {
    if handle.Some? then
      var head := ReplyHead(cl.reqPos, size);
      var queued := Push(cl.(handle := handle, fileSize := size, started := true, head := head), head);
      StartRead(c, Sent(queued, plan), PlanLeft(queued, plan))
    else
      Refuse(c, cl, NotFoundReply(), plan)
  }

  /** An error reply: the connection is closed once it has been sent. */
  function Refuse(c: ClientId, cl: Client, reply: Block, plan: seq<int>): Outcome
  {
    var queued := Push(cl.(waitingClose := true, head := reply), reply);
    var sent := Sent(queued, plan);
    if sent.deq == [] then CloseClient(c, sent, PlanLeft(queued, plan))
    else Outcome(sent, [], PlanLeft(queued, plan))
  }

  /** `on_rtsocket_write`. */
  function OnWritable(c: ClientId, cl: Client, plan: seq<int>): Outcome
  {
    var sent := Sent(cl, plan);
    if sent.waitingClose && sent.deq == [] then CloseClient(c, sent, PlanLeft(cl, plan))
    else Continue(c, sent, PlanLeft(cl, plan))
  }

  /** The part of `on_rtsocket_read` that acts on a decoded request head. */
  function OnRequest(c: ClientId, cl: Client, path: Path, offset: nat): Outcome {
    Outcome(cl.(reqPos := offset, curPos := offset, requested := true, path := path), [Open(c, path)], [])
  }

  /** The part of `on_rtsocket_read` that rejects a head it cannot decode. */
  function OnBadRequest(c: ClientId, cl: Client, message: seq<byte>, plan: seq<int>): Outcome
  {
    Refuse(c, cl.(requested := true), BadRequestReply(message), plan)
  }
}
