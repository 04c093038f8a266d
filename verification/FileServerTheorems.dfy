/** What the file server guarantees over every run, with no condition on it: any number of clients,
    operations lost in a full queue, a file thread that has crashed, reads that fail and peers that
    go away at any moment included. */
module FileServerTheorems {
  import opened Streams
  import opened Transport
  import opened HttpText
  import opened DownloadClient
  import opened FileThread
  import opened DownloadInvariant
  import opened DownloadSteps
  import opened FileServer

  /** The state after a run from the empty server. */
  function Reached(disk: Disk, es: seq<Event>): Server { Run(disk, INITIAL, es) }

  lemma ReachedIsGood(disk: Disk, es: seq<Event>)
    ensures Good(disk, Reached(disk, es))
  {
    InitialIsGood(disk);
    RunKeeps(disk, INITIAL, es);
  }

  lemma {:induction false} RunSnoc(disk: Disk, s: Server, es: seq<Event>, e: Event)
    ensures Run(disk, s, es + [e]) == Next(disk, Run(disk, s, es), e)
    decreases |es|
  {
    hide Next;
    if es == [] {
      assert [] + [e] == [e] && [e][1..] == [];
    } else {
      RunSnoc(disk, Next(disk, s, es[0]), es[1..], e);
      assert (es + [e])[1..] == es[1..] + [e];
    }
  }

  /** A run, its last event taken off. */
  lemma LastEvent(disk: Disk, es: seq<Event>)
    requires es != []
    ensures var init := es[..|es| - 1];
      && Reached(disk, es) == Next(disk, Reached(disk, init), es[|init|])
      && (forall i :: 0 <= i <= |init| ==> es[..i] == init[..i])
      && init[..|init|] == init
  {
    var init := es[..|es| - 1];
    assert es == init + [es[|init|]];
    RunSnoc(disk, INITIAL, init, es[|init|]);
  }

  // Operations the full queue refuses.

  /** Event `i` of a run pushes the operation when there is no room for it. */
  ghost predicate RefusedAt(disk: Disk, es: seq<Event>, i: nat, op: FileOp)
    requires i < |es|
  {
    Overfills(Reached(disk, es[..i]), es[i]) && op in Pushed(Reached(disk, es[..i]), es[i])
  }

  ghost predicate Refused(disk: Disk, es: seq<Event>, op: FileOp) {
    exists i :: 0 <= i < |es| && RefusedAt(disk, es, i, op)
  }

  /** One event more. */
  lemma RefusedSnoc(disk: Disk, es: seq<Event>, op: FileOp)
    requires es != []
    ensures var init, e := es[..|es| - 1], es[|es| - 1];
      Refused(disk, es, op)
      <==> Refused(disk, init, op) || (Overfills(Reached(disk, init), e) && op in Pushed(Reached(disk, init), e))
  {
    hide Reached, Overfills, Pushed;
    var init := es[..|es| - 1];
    assert es[..|init|] == init;
    assert RefusedAt(disk, es, |init|, op)
      <==> Overfills(Reached(disk, init), es[|init|]) && op in Pushed(Reached(disk, init), es[|init|]);
    forall i | 0 <= i < |init| ensures RefusedAt(disk, es, i, op) <==> RefusedAt(disk, init, i, op) {
      assert es[..i] == init[..i];
    }
    hide RefusedAt;
  }

  /** For every run: exactly those operations are lost that some event pushed when the ring was
      full, and the ring never holds more than its capacity. */
  lemma {:induction false} LostExactlyWhenRefused(disk: Disk, es: seq<Event>, op: FileOp)
    ensures |Reached(disk, es).ops| <= OP_QUEUE
    ensures op in Reached(disk, es).lost <==> Refused(disk, es, op)
    decreases |es|
  {
    if es != [] {
      hide Next, Overfills, Pushed, Run, Refused;
      var init, e := es[..|es| - 1], es[|es| - 1];
      LostExactlyWhenRefused(disk, init, op);
      LastEvent(disk, es);
      LostStep(disk, Reached(disk, init), e, op);
      RefusedSnoc(disk, es, op);
    }
  }

  // What holds of every run.

  /** Shared handles: `fp` is open exactly while somebody is registered, and the operation the file
      thread takes next finds what it needs: a read its initiator on an open file and all its bytes
      in the file, a close of a handle an open file to let go of. */
  lemma HandlesAreCounted(disk: Disk, es: seq<Event>)
    ensures var s := Reached(disk, es);
      && (forall p :: p in s.thread.files ==> (s.thread.files[p].open <==> s.thread.files[p].operators != {}))
      && (s.ops != [] ==>
            match s.ops[0]
            case Open(_, _) => true
            case Read(c, p, offset, size) =>
              p in s.thread.files && c in s.thread.files[p].operators && s.thread.files[p].open && p in disk
              && offset + size <= |disk[p]| && size > 0
            case Close(c, h) =>
              h.Some? ==>
                h.value in s.thread.files && c in s.thread.files[h.value].operators && s.thread.files[h.value].open)
  {
    ReachedIsGood(disk, es);
    var s := Reached(disk, es);
    if s.ops != [] {
      var c := s.ops[0].owner;
      OpsOfHead(s.ops, c);
      OpFindsItsFile(disk, s.thread, ViewOf(s, c), c);
    }
  }

  /** What executing the operation at the head of the queue answers, over every run: an open says
      whether the file exists, and how long it is; a read brings as much of the piece asked for as
      `fread` delivers, `n` bytes at most; and whoever closes a file is no longer registered on it. */
  lemma OperationsAreAnswered(disk: Disk, es: seq<Event>, n: nat)
    requires Enabled(Reached(disk, es), Work(n))
    ensures var s := Reached(disk, es);
            var t := Next(disk, s, Work(n));
      match s.ops[0]
      case Open(c, p) =>
        && t.posted == s.posted + [if p in disk then OpenDone(c, Some(p), |disk[p]|) else OpenDone(c, None, 0)]
        && (p in disk ==> p in Registered(t.thread, c))
      case Read(c, p, offset, size) =>
        && p in disk && offset + size <= |disk[p]|
        && t.posted == s.posted + [ReadDone(c, FRead(disk[p], offset, size, n))]
        && (FRead(disk[p], offset, size, n).Some? <==> n > 0)
        && (n > 0 ==> FRead(disk[p], offset, size, n).value == disk[p][offset..offset + Min(n, size)])
      case Close(c, h) => t.posted == s.posted && (h.Some? ==> h.value !in Registered(t.thread, c))
  {
    ReachedIsGood(disk, es);
    var s := Reached(disk, es);
    var c := s.ops[0].owner;
    OpsOfHead(s.ops, c);
    OpFindsItsFile(disk, s.thread, ViewOf(s, c), c);
    hide Run, OpsOf, PostedOf, ClientInv, FRead, Good, Reached;
    match s.ops[0]
    case Open(_, _) => OpenIsAnswered(disk, s, n);
    case Read(_, _, _, _) => ReadIsAnswered(disk, s, n);
    case Close(_, _) => CloseIsAnswered(disk, s, n);
  }

  lemma OpenIsAnswered(disk: Disk, s: Server, n: nat)
    requires HandlesInv(disk, s.thread) && Enabled(s, Work(n)) && s.ops[0].Open?
    ensures var t, c, p := Next(disk, s, Work(n)), s.ops[0].owner, s.ops[0].path;
      && t.posted == s.posted + [if p in disk then OpenDone(c, Some(p), |disk[p]|) else OpenDone(c, None, 0)]
      && (p in disk ==> p in Registered(t.thread, c))
  {
  }

  lemma ReadIsAnswered(disk: Disk, s: Server, n: nat)
    requires Enabled(s, Work(n)) && s.ops[0].Read?
    requires var op := s.ops[0];
      && op.path in s.thread.files && op.owner in s.thread.files[op.path].operators && s.thread.files[op.path].open
      && op.path in disk && op.offset + op.size <= |disk[op.path]| && op.size > 0
    ensures var op := s.ops[0];
      && Next(disk, s, Work(n)).posted
         == s.posted + [ReadDone(op.owner, FRead(disk[op.path], op.offset, op.size, n))]
      && (FRead(disk[op.path], op.offset, op.size, n).Some? <==> n > 0)
      && (n > 0 ==>
            FRead(disk[op.path], op.offset, op.size, n).value
            == disk[op.path][op.offset..op.offset + Min(n, op.size)])
  {
  }

  lemma CloseIsAnswered(disk: Disk, s: Server, n: nat)
    requires HandlesInv(disk, s.thread) && Enabled(s, Work(n)) && s.ops[0].Close?
    requires var h := s.ops[0].handle; h.Some? ==> h.value in s.thread.files && s.thread.files[h.value].open
    ensures var t, c, h := Next(disk, s, Work(n)), s.ops[0].owner, s.ops[0].handle;
            t.posted == s.posted && (h.Some? ==> h.value !in Registered(t.thread, c))
  {
    assert s.posted + [] == s.posted;
  }

  /** No client ever has more than two operations queued. */
  lemma TwoOperationsEach(disk: Disk, es: seq<Event>, c: ClientId)
    ensures |OpsOf(Reached(disk, es).ops, c)| <= 2
  {
    ReachedIsGood(disk, es);
    var s := Reached(disk, es);
    if c in s.clients { AtMostTwoOps(disk, c, ViewOf(s, c)); }
  }

  /** Along the run at most 128 clients have operations queued at any time. */
  ghost predicate RoomyRun(disk: Disk, s: Server, es: seq<Event>)
    decreases |es|
  {
    es == [] || (Roomy(s, es[0]) && RoomyRun(disk, Next(disk, s, es[0]), es[1..]))
  }

  /** The unchecked push never loses an operation while at most 128 clients have any queued. */
  lemma QueueNeverOverflows(disk: Disk, es: seq<Event>)
    requires RoomyRun(disk, INITIAL, es)
    ensures Reached(disk, es).lost == {} && |Reached(disk, es).ops| <= OP_QUEUE
  {
    InitialIsGood(disk);
    RoomyLosesNothing(disk, INITIAL, es);
  }

  lemma {:induction false} RoomyLosesNothing(disk: Disk, s: Server, es: seq<Event>)
    requires Good(disk, s) && s.lost == {} && |s.ops| <= OP_QUEUE && RoomyRun(disk, s, es)
    ensures Run(disk, s, es).lost == {} && |Run(disk, s, es).ops| <= OP_QUEUE
    decreases |es|
  {
    hide Next, Good, Roomy, Overfills, Pushed;
    if es != [] {
      var t := Next(disk, s, es[0]);
      NextKeeps(disk, s, es[0]);
      RoomyFits(disk, s, es[0]);
      LostStep(disk, s, es[0], Open(0, ""));
      forall op ensures op !in t.lost {
        LostStep(disk, s, es[0], op);
      }
      RoomyLosesNothing(disk, t, es[1..]);
    }
  }

  /** What a handler does to what was asked for: nothing, unless it is a request. */
  ghost predicate SameRequest(cl: Client, o: Client) {
    o.requested == cl.requested && o.path == cl.path && o.reqPos == cl.reqPos && (cl.waitingClose ==> o.waitingClose)
  }

  lemma ClosersAskNothing(c: ClientId, cl: Client, plan: seq<int>)
    ensures SameRequest(cl, CloseClient(c, cl, plan).cl) && SameRequest(cl, StartRead(c, cl, plan).cl)
    ensures SameRequest(cl, Continue(c, cl, plan).cl) && SameRequest(cl, Sent(cl, plan))
  {
    hide Flush;
  }

  lemma HandlersAskNothing(c: ClientId, cl: Client, posted: Posted, plan: seq<int>)
    ensures SameRequest(cl, OnWritable(c, cl, plan).cl) && SameRequest(cl, HandlePosted(posted, cl, plan).cl)
  {
    hide Sent, Continue, CloseClient, StartRead, PlanLeft, ReplyHead, NotFoundReply;
    ClosersAskNothing(c, cl, plan);
    ClosersAskNothing(c, Sent(cl, plan), PlanLeft(cl, plan));
    match posted
    case OpenDone(d, handle, size) =>
      var head := if handle.Some? then ReplyHead(cl.reqPos, size) else NotFoundReply();
      var begun := if handle.Some? then cl.(handle := handle, fileSize := size, started := true, head := head)
                   else cl.(waitingClose := true, head := head);
      ClosersAskNothing(d, Push(begun, head), plan);
      ClosersAskNothing(d, Sent(Push(begun, head), plan), PlanLeft(Push(begun, head), plan));
    case ReadDone(d, data) =>
      ClosersAskNothing(d, cl.(reading := false, handle := None), plan);
      if data.Some? {
        var queued := Push(cl.(reading := false), data.value);
        ClosersAskNothing(d, queued, plan);
        var sent := Sent(queued, plan);
        ClosersAskNothing(d, sent.(curPos := sent.curPos + |data.value|), PlanLeft(queued, plan));
      }
  }

  lemma RejectedWaitsToClose(c: ClientId, cl: Client, message: seq<byte>, plan: seq<int>)
    ensures OnBadRequest(c, cl, message, plan).cl.waitingClose
  {
    hide Flush;
  }

  /** A request stands for as long as its connection. */
  ghost predicate Asks(s: Server, c: ClientId, path: Path, offset: nat) {
    && c in s.clients && s.clients[c].requested && !s.clients[c].waitingClose
    && s.clients[c].path == path && s.clients[c].reqPos == offset
  }

  lemma AsksStep(disk: Disk, s: Server, e: Event, c: ClientId, path: Path, offset: nat)
    ensures Asks(Next(disk, s, e), c, path, offset) ==> Asks(s, c, path, offset) || e == Request(c, path, offset)
  {
    hide HandlePosted, OnWritable, OnBadRequest, CloseClient, Exec, PushOps;
    if Enabled(s, e) {
      match e
      case Connect(_) =>
      case Request(_, _, _) =>
      case Work(_) =>
      case BadRequest(d, message, plan) => RejectedWaitsToClose(d, s.clients[d], message, plan);
      case Writable(d, plan) => HandlersAskNothing(d, s.clients[d], OpenDone(d, None, 0), plan);
      case Broken(d) => ClosersAskNothing(d, s.clients[d], []);
      case Deliver(plan) =>
        var d := s.posted[0].owner;
        HandlersAskNothing(d, s.clients[d], s.posted[0], plan);
    }
  }

  /** Over every run: a connection is served what it asked for, the file and the offset of a request
      that was made on it. */
  lemma {:induction false} ServesWhatWasAsked(disk: Disk, es: seq<Event>, c: ClientId)
    requires c in Reached(disk, es).clients
    requires Reached(disk, es).clients[c].requested && !Reached(disk, es).clients[c].waitingClose
    ensures Request(c, Reached(disk, es).clients[c].path, Reached(disk, es).clients[c].reqPos) in es
    decreases |es|
  {
    if es != [] {
      hide Next, Run;
      var init, cl := es[..|es| - 1], Reached(disk, es).clients[c];
      LastEvent(disk, es);
      assert es == init + [es[|init|]];
      AsksStep(disk, Reached(disk, init), es[|init|], c, cl.path, cl.reqPos);
      if es[|init|] != Request(c, cl.path, cl.reqPos) {
        ServesWhatWasAsked(disk, init, c);
      }
    }
  }

  /** Per connection: what `rt_send` took, followed by what is queued, is the reply head and the
      file from the requested position to the current one. */
  lemma StreamIsHeadAndFile(disk: Disk, es: seq<Event>, c: ClientId)
    requires c in Reached(disk, es).clients
    ensures var cl := Reached(disk, es).clients[c];
      cl.started ==>
        && cl.path in disk && cl.fileSize == |disk[cl.path]|
        && (cl.reqPos <= cl.fileSize ==> cl.reqPos <= cl.curPos <= cl.fileSize)
        && cl.accepted + Unsent(cl.deq)
           == ReplyHead(cl.reqPos, cl.fileSize) + Body(disk[cl.path], cl.reqPos, cl.curPos)
  {
    ReachedIsGood(disk, es);
    assert ClientInv(disk, c, ViewOf(Reached(disk, es), c));
  }

  /** Back-pressure, and one read at a time: never more than three items queued; a read that is
      queued is the only one, it starts at `cur_file_pos_` and `reading_file_` is set for it, and so
      it is while its result is posted.  `reading_file_` is set for nothing else, but for a read the
      full queue has refused. */
  lemma OneReadAtATime(disk: Disk, es: seq<Event>, c: ClientId)
    requires c in Reached(disk, es).clients
    ensures var s := Reached(disk, es);
            var cl, ops, posted := s.clients[c], OpsOf(s.ops, c), PostedOf(s.posted, c);
      && |cl.deq| <= 3
      && (cl.live && cl.started && cl.curPos < cl.fileSize && |cl.deq| < 3 ==> cl.reading)
      && (forall i :: 0 <= i < |ops| && ops[i].Read? ==>
            i == 0 && cl.reading && posted == [] && cl.curPos < cl.fileSize
            && ops[0] == Read(c, cl.path, cl.curPos, Min(2 * 1024 * 1024, cl.fileSize - cl.curPos)))
      && (forall i :: 0 <= i < |posted| && posted[i].ReadDone? ==> |posted| == 1 && cl.reading)
      && (cl.reading ==>
            && cl.curPos < cl.fileSize
            && (|| (ops != [] && ops[0] == TheRead(c, cl))
                || (posted != [] && posted[0].ReadDone?)
                || Refused(disk, es, TheRead(c, cl))))
  {
    ReachedIsGood(disk, es);
    var s := Reached(disk, es);
    OneRead(disk, c, ViewOf(s, c));
    if s.clients[c].reading { LostExactlyWhenRefused(disk, es, TheRead(c, s.clients[c])); }
    hide ClientInv, Run, OpsOf, PostedOf, Refused;
  }

  lemma OneRead(disk: Disk, c: ClientId, v: View)
    requires ClientInv(disk, c, v)
    ensures |v.cl.deq| <= PIPELINE
    ensures forall i :: 0 <= i < |v.ops| && v.ops[i].Read? ==>
              i == 0 && v.cl.reading && v.posted == [] && v.cl.curPos < v.cl.fileSize && v.ops[0] == TheRead(c, v.cl)
    ensures forall i :: 0 <= i < |v.posted| && v.posted[i].ReadDone? ==> |v.posted| == 1 && v.cl.reading
    ensures v.cl.reading ==>
      && v.cl.curPos < v.cl.fileSize
      && (|| (v.ops != [] && v.ops[0] == TheRead(c, v.cl))
          || (v.posted != [] && v.posted[0].ReadDone?)
          || TheRead(c, v.cl) in v.lost)
  {
    hide StreamInv;
  }

  /** A transfer that is not over is never left waiting for nothing: there are bytes queued whose
      acceptance will be reported, or a read is under way, or the full queue has refused that read. */
  lemma NeverStalls(disk: Disk, es: seq<Event>, c: ClientId)
    requires c in Reached(disk, es).clients
    requires var cl := Reached(disk, es).clients[c]; cl.live && cl.started && cl.reqPos < cl.fileSize
    ensures var s := Reached(disk, es);
            var cl, ops, posted := s.clients[c], OpsOf(s.ops, c), PostedOf(s.posted, c);
      || cl.deq != []
      || (ops != [] && ops[0].Read?)
      || (posted != [] && posted[0].ReadDone?)
      || (cl.reading && cl.curPos < cl.fileSize && Refused(disk, es, TheRead(c, cl)))
  {
    ReachedIsGood(disk, es);
    var s := Reached(disk, es);
    assert ClientInv(disk, c, ViewOf(s, c));
    if s.clients[c].curPos < s.clients[c].fileSize {
      LostExactlyWhenRefused(disk, es, TheRead(c, s.clients[c]));
    }
  }

  lemma CompletionIsWhole(disk: Disk, c: ClientId, v: View, plan: seq<int>)
    requires ClientInv(disk, c, v) && v.cl.live && v.cl.handle.Some?
    requires !OnWritable(c, v.cl, plan).cl.live
    ensures OnWritable(c, v.cl, plan).cl.accepted
            == ReplyHead(v.cl.reqPos, |disk[v.cl.path]|) + Body(disk[v.cl.path], v.cl.reqPos, |disk[v.cl.path]|)
    ensures v.cl.reqPos <= |disk[v.cl.path]| && |disk[v.cl.path]| > 0
  {
    hide Unsent, Flush, ReplyHead;
    SentKeepsStream(v.cl, plan);
    EmptyUnsent();
  }

  lemma CompletionIsWholeAfterRead(disk: Disk, c: ClientId, v: View, block: Block, plan: seq<int>)
    requires ClientInv(disk, c, v) && v.cl.live && v.cl.handle.Some?
    requires v.posted == [ReadDone(c, Some(block))]
    requires !OnReadDone(c, v.cl, Some(block), plan).cl.live
    ensures OnReadDone(c, v.cl, Some(block), plan).cl.accepted
            == ReplyHead(v.cl.reqPos, |disk[v.cl.path]|) + Body(disk[v.cl.path], v.cl.reqPos, |disk[v.cl.path]|)
    ensures v.cl.reqPos <= |disk[v.cl.path]| && |disk[v.cl.path]| > 0
  {
    ReadDoneKeeps(disk, c, v, plan);
    hide Unsent, Flush, ReplyHead, OnReadDone;
    var o := OnReadDone(c, v.cl, Some(block), plan);
    OnReadDoneShape(c, v.cl, block, plan);
    EmptyUnsent();
    assert StreamInv(disk, o.cl);
  }

  /** The event may close a connection only because its transfer is finished: the transport can take
      more, or a read has succeeded. */
  predicate Finishing(s: Server, e: Event, c: ClientId) {
    match e
    case Writable(d, _) => d == c
    case Deliver(_) => s.posted != [] && s.posted[0].ReadDone? && s.posted[0].owner == c && s.posted[0].data.Some?
    case _ => false
  }

  /** Over every run: a transfer that is closed as finished has had every byte accepted, the head
      and the file from the requested position to its end. */
  lemma FinishedMeansWhole(disk: Disk, es: seq<Event>, e: Event, c: ClientId)
    requires var s := Reached(disk, es);
      && Enabled(s, e) && Finishing(s, e, c) && c in s.clients && s.clients[c].live && s.clients[c].started
      && !Next(disk, s, e).clients[c].live
    ensures var cl := Reached(disk, es).clients[c];
      && cl.path in disk && cl.reqPos <= |disk[cl.path]| && |disk[cl.path]| > 0
      && Next(disk, Reached(disk, es), e).clients[c].accepted
         == ReplyHead(cl.reqPos, |disk[cl.path]|) + Body(disk[cl.path], cl.reqPos, |disk[cl.path]|)
  {
    ReachedIsGood(disk, es);
    hide Run;
    var s := Reached(disk, es);
    var v := ViewOf(s, c);
    assert ClientInv(disk, c, v);
    match e
    case Writable(_, plan) => CompletionIsWhole(disk, c, v, plan);
    case Deliver(plan) =>
      PostedOfHead(s.posted, c);
      CompletionIsWholeAfterRead(disk, c, v, s.posted[0].data.value, plan);
  }

  /** A finished transfer has sent as many body bytes as its head announced exactly when it began
      at the start of the file: a 206 reply announces the whole file as well. */
  lemma AnnouncedIsSentExactlyFromTheStart(disk: Disk, es: seq<Event>, e: Event, c: ClientId)
    requires var s := Reached(disk, es);
      && Enabled(s, e) && Finishing(s, e, c) && c in s.clients && s.clients[c].live && s.clients[c].started
      && !Next(disk, s, e).clients[c].live
    ensures var cl := Reached(disk, es).clients[c];
      |Next(disk, Reached(disk, es), e).clients[c].accepted| - |ReplyHead(cl.reqPos, cl.fileSize)| == cl.fileSize
      <==> cl.reqPos == 0
  {
    FinishedMeansWhole(disk, es, e, c);
    StreamIsHeadAndFile(disk, es, c);
    hide Run, Next, Unsent, ReplyHead;
  }

  lemma OnReadDoneShape(c: ClientId, cl: Client, block: Block, plan: seq<int>)
    requires cl.live
    ensures var o := OnReadDone(c, cl, Some(block), plan).cl;
      && o.started == cl.started && o.path == cl.path && o.reqPos == cl.reqPos && o.fileSize == cl.fileSize
      && (!o.live ==> o.deq == [] && o.curPos == o.fileSize > 0)
  {
    hide Flush;
  }
}
