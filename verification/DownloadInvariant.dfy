/** What holds of one download connection between any two events, whatever the other clients, the
    file thread and the transport do in the meantime, and whichever of its operations are lost. */
module DownloadInvariant {
  import opened Streams
  import opened Transport
  import opened HttpText
  import opened DownloadClient
  import opened FileThread

  /** One client's share of the server: its fields, its queued operations and its posted
      completions in order, the files it is registered on, and its operations that were refused by
      a full queue. */
  datatype View = View(cl: Client, ops: seq<FileOp>, posted: seq<Posted>, reg: set<Path>, lost: set<FileOp>)

  function Body(file: seq<byte>, from: nat, to: nat): seq<byte> {
    if from <= to <= |file| then file[from..to] else []
  }

  /** The stream: accepted bytes, then queued bytes, are the reply head and the file from the
      requested position to the current one. */
  ghost predicate StreamInv(disk: Disk, cl: Client) {
    && (cl.started ==>
          && cl.path in disk
          && cl.fileSize == |disk[cl.path]|
          && cl.head == ReplyHead(cl.reqPos, cl.fileSize)
          && cl.reqPos <= cl.curPos
          && (cl.curPos <= cl.fileSize || cl.curPos == cl.reqPos)
          && cl.accepted + Unsent(cl.deq) == cl.head + Body(disk[cl.path], cl.reqPos, cl.curPos))
    && (cl.waitingClose ==> cl.accepted + Unsent(cl.deq) == cl.head)
    && (!cl.started ==> cl.curPos == cl.reqPos)
    && (!cl.started && !cl.waitingClose ==> cl.accepted == [] && cl.deq == [] && cl.head == [])
  }

  /** The send queue never holds more than three items, a read is under way only while there is
      room for its result, and a client with something left to send is never left without either
      a read under way or bytes queued. */
  ghost predicate PipelineInv(cl: Client) {
    && |cl.deq| <= PIPELINE
    && (cl.reading ==> cl.started && cl.curPos < cl.fileSize && |cl.deq| < PIPELINE)
    && (cl.handle.Some? && !cl.reading ==> |cl.deq| == PIPELINE || cl.curPos >= cl.fileSize)
    && (cl.handle.Some? && cl.reqPos < cl.fileSize ==> cl.reading || cl.deq != [])
  }

  ghost predicate FlagsInv(cl: Client) {
    && (cl.handle.Some? ==> cl.started && cl.handle.value == cl.path)
    && (cl.started || cl.waitingClose || cl.abandoned ==> cl.requested)
    && (cl.started && cl.live ==> cl.handle.Some?)
    && (!cl.started ==> cl.fileSize == 0)
    && !(cl.started && cl.waitingClose)
    && (cl.waitingClose ==> !cl.reading && |cl.deq| <= 1)
    && (cl.waitingClose && cl.live ==> cl.deq != [])
    && (cl.abandoned ==> !cl.live)
    && (cl.handle.Some? && !cl.live ==> cl.abandoned)
  }

  function TheRead(c: ClientId, cl: Client): FileOp
    requires cl.curPos < cl.fileSize
  {
    Read(c, cl.path, cl.curPos, BlockSize(cl))
  }

  function TheClose(c: ClientId, cl: Client): FileOp { Close(c, Some(cl.path)) }

  function NullClose(c: ClientId): FileOp { Close(c, None) }

  // Where a client can stand with the file thread while nothing of it has been lost, but for a close
  // of a null handle.

  ghost predicate AtRest(c: ClientId, v: View) {
    && v.ops == [] && v.posted == [] && !v.cl.reading
    && v.reg == (if v.cl.handle.Some? then {v.cl.path} else {})
    && (v.cl.live && v.cl.requested ==> v.cl.started || v.cl.waitingClose)
    && (v.lost == {} || (v.lost == {NullClose(c)} && !v.cl.live && v.cl.handle.None?))
  }

  ghost predicate Opening(v: View) {
    && v.cl.requested && !v.cl.started && !v.cl.waitingClose && !v.cl.reading && v.cl.handle.None?
    && (v.cl.live || v.cl.abandoned)
  }

  ghost predicate OpenQueued(c: ClientId, v: View) {
    Opening(v) && v.ops == [Open(c, v.cl.path)] && v.posted == [] && v.reg == {} && v.lost == {}
  }

  ghost predicate OpenPosted(disk: Disk, c: ClientId, v: View) {
    && Opening(v) && v.lost == {}
    && v.ops == [] && |v.posted| == 1 && v.posted[0].OpenDone? && v.posted[0].owner == c
    && (match v.posted[0].handle
        case Some(p) => p == v.cl.path && v.reg == {p} && p in disk && v.posted[0].size == |disk[p]|
        case None => v.reg == {})
  }

  ghost predicate ReadQueued(c: ClientId, v: View) {
    && v.cl.reading && v.posted == [] && v.reg == {v.cl.path} && v.cl.curPos < v.cl.fileSize && v.lost == {}
    && (if v.cl.handle.Some? then v.ops == [TheRead(c, v.cl)]
        else !v.cl.live && v.ops == [TheRead(c, v.cl), TheClose(c, v.cl)])
  }

  /** The result of the read is posted; if it succeeded, it is the piece of the file that comes next. */
  ghost predicate Answered(disk: Disk, c: ClientId, v: View) {
    && v.cl.reading && |v.posted| == 1 && v.posted[0].ReadDone? && v.posted[0].owner == c
    && (v.posted[0].data.Some? ==>
          var block := v.posted[0].data.value;
          && v.cl.path in disk
          && v.cl.curPos + |block| <= |disk[v.cl.path]|
          && block == disk[v.cl.path][v.cl.curPos..v.cl.curPos + |block|])
  }

  ghost predicate ReadPosted(disk: Disk, c: ClientId, v: View) {
    && Answered(disk, c, v) && v.lost == {}
    && (if v.cl.handle.Some? then v.ops == [] && v.reg == {v.cl.path}
        else
          && !v.cl.live
          && ((v.ops == [TheClose(c, v.cl)] && v.reg == {v.cl.path}) || (v.ops == [] && v.reg == {})))
  }

  ghost predicate Departed(v: View) { v.cl.started && v.cl.handle.None? && !v.cl.live }

  ghost predicate CloseQueued(c: ClientId, v: View) {
    && Departed(v) && !v.cl.reading
    && v.ops == [TheClose(c, v.cl)] && v.posted == [] && v.reg == {v.cl.path} && v.lost <= {NullClose(c)}
  }

  /** A close of a null handle is on its way to the file thread. */
  ghost predicate NullQueued(c: ClientId, v: View) {
    && Departed(v) && !v.cl.reading && v.posted == []
    && (|| (v.lost == {} && v.ops == [TheClose(c, v.cl), NullClose(c)] && v.reg == {v.cl.path})
        || (v.lost == {} && v.ops == [NullClose(c)] && v.reg == {})
        || (v.lost == {TheClose(c, v.cl)} && v.ops == [NullClose(c)] && v.reg == {v.cl.path}))
  }

  // And where the loss of an operation leaves it.

  /** The open is lost: nobody will ever answer the request. */
  ghost predicate OpenLost(c: ClientId, v: View) {
    Opening(v) && v.ops == [] && v.posted == [] && v.reg == {} && v.lost == {Open(c, v.cl.path)}
  }

  /** A read is lost: `reading_file_` stays set, and no other read is ever started. */
  ghost predicate ReadLost(c: ClientId, v: View) {
    && v.cl.reading && v.cl.curPos < v.cl.fileSize && v.posted == []
    && (if v.cl.handle.Some? then v.ops == [] && v.reg == {v.cl.path} && v.lost == {TheRead(c, v.cl)}
        else
          && !v.cl.live
          && (|| (v.lost == {TheRead(c, v.cl)} && v.ops == [TheClose(c, v.cl)] && v.reg == {v.cl.path})
              || (v.lost == {TheRead(c, v.cl)} && v.ops == [] && v.reg == {})
              || (v.lost == {TheRead(c, v.cl), TheClose(c, v.cl)} && v.ops == [] && v.reg == {v.cl.path})))
  }

  /** The close is lost: the connection stays registered. */
  ghost predicate CloseLost(disk: Disk, c: ClientId, v: View) {
    && Departed(v) && v.reg == {v.cl.path}
    && (|| (!v.cl.reading && v.ops == [] && v.posted == []
            && TheClose(c, v.cl) in v.lost && v.lost <= {TheClose(c, v.cl), NullClose(c)})
        || (v.cl.reading && v.cl.curPos < v.cl.fileSize && v.ops == [TheRead(c, v.cl)] && v.posted == []
            && v.lost == {TheClose(c, v.cl)})
        || (Answered(disk, c, v) && v.ops == [] && v.lost == {TheClose(c, v.cl)}))
  }

  ghost predicate Phase(disk: Disk, c: ClientId, v: View) {
    || AtRest(c, v) || OpenQueued(c, v) || OpenPosted(disk, c, v) || ReadQueued(c, v) || ReadPosted(disk, c, v)
    || CloseQueued(c, v) || NullQueued(c, v)
    || OpenLost(c, v) || ReadLost(c, v) || CloseLost(disk, c, v)
  }

  ghost predicate ClientInv(disk: Disk, c: ClientId, v: View) {
    StreamInv(disk, v.cl) && PipelineInv(v.cl) && FlagsInv(v.cl) && Phase(disk, c, v)
  }
}
