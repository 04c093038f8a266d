/** Every event keeps the invariant of the connection it concerns. */
module DownloadSteps {
  import opened Streams
  import opened Transport
  import opened HttpText
  import opened DownloadClient
  import opened FileThread
  import opened DownloadInvariant

  lemma SentKeepsStream(cl: Client, plan: seq<int>)
    ensures var r := Sent(cl, plan);
      && r == cl.(deq := r.deq, accepted := r.accepted)
      && cl.accepted <= r.accepted
      && |r.deq| <= |cl.deq|
      && r.accepted + Unsent(r.deq) == cl.accepted + Unsent(cl.deq)
      && (!cl.live ==> r == cl)
  {
    hide Unsent, Advance;
    var f := Flush(cl.live, cl.deq, plan);
    hide Flush;
    FlushConserves(cl.live, cl.deq, plan);
    Regroup(cl.accepted, f.sent, Unsent(f.deq));
  }

  lemma PushExtendsStream(cl: Client, data: Block)
    ensures Unsent(Push(cl, data).deq) == Unsent(cl.deq) + data
    ensures cl.accepted + Unsent(Push(cl, data).deq) == cl.accepted + Unsent(cl.deq) + data
  {
    UnsentSnoc(cl.deq, SendItem(data, 0));
    Regroup(cl.accepted, Unsent(cl.deq), data);
  }

  lemma BodyExtends(file: seq<byte>, from: nat, to: nat, block: seq<byte>)
    requires from <= to && to + |block| <= |file| && block == file[to..to + |block|]
    ensures Body(file, from, to + |block|) == Body(file, from, to) + block
  {
  }

  function After(v: View, o: Outcome): View {
    v.(cl := o.cl, ops := v.ops + o.ops)
  }

  lemma RequestKeeps(disk: Disk, c: ClientId, v: View, path: Path, offset: nat)
    requires ClientInv(disk, c, v) && v.cl.live && !v.cl.requested
    ensures ClientInv(disk, c, After(v, OnRequest(c, v.cl, path, offset)))
  {
    hide Unsent;
    assert AtRest(c, v);
    assert OpenQueued(c, After(v, OnRequest(c, v.cl, path, offset)));
  }

  /** Error replies, to an undecodable request or a file that cannot be opened. */
  lemma RefuseKeeps(disk: Disk, c: ClientId, v: View, reply: Block, plan: seq<int>)
    requires StreamInv(disk, v.cl) && PipelineInv(v.cl) && FlagsInv(v.cl)
    requires !v.cl.started && !v.cl.waitingClose && v.cl.requested
    requires v.ops == [] && v.posted == [] && v.reg == {} && v.lost == {}
    ensures ClientInv(disk, c, After(v, Refuse(c, v.cl, reply, plan)))
  {
    hide Unsent, Flush;
    var queued := Push(v.cl.(waitingClose := true, head := reply), reply);
    PushExtendsStream(v.cl.(waitingClose := true, head := reply), reply);
    assert Unsent([]) == [] by { EmptyUnsent(); }
    SentKeepsStream(queued, plan);
    assert AtRest(c, After(v, Refuse(c, v.cl, reply, plan)));
  }

  lemma BadRequestKeeps(disk: Disk, c: ClientId, v: View, message: seq<byte>, plan: seq<int>)
    requires ClientInv(disk, c, v) && v.cl.live && !v.cl.requested
    ensures ClientInv(disk, c, After(v, OnBadRequest(c, v.cl, message, plan)))
  {
    hide Unsent, Flush, Refuse;
    assert AtRest(c, v);
    var w := v.(cl := v.cl.(requested := true));
    RefuseKeeps(disk, c, w, BadRequestReply(message), plan);
    assert After(w, Refuse(c, w.cl, BadRequestReply(message), plan)) == After(v, OnBadRequest(c, v.cl, message, plan));
  }

  lemma EmptyUnsent()
    ensures Unsent([]) == []
  {
  }

  lemma CloseKeeps(disk: Disk, c: ClientId, v: View, plan: seq<int>)
    requires ClientInv(disk, c, v) && v.cl.live
    ensures ClientInv(disk, c, After(v, CloseClient(c, v.cl, plan)))
  {
    hide Unsent;
    var w := After(v, CloseClient(c, v.cl, plan));
    if AtRest(c, v) {
      assert v.cl.handle.Some? ==> CloseQueued(c, w);
      assert v.cl.handle.None? ==> AtRest(c, w);
    } else if OpenQueued(c, v) {
      assert OpenQueued(c, w);
    } else if OpenPosted(disk, c, v) {
      assert OpenPosted(disk, c, w);
    } else if ReadQueued(c, v) {
      assert TheRead(c, v.cl) == TheRead(c, w.cl);
      assert ReadQueued(c, w);
    } else if ReadPosted(disk, c, v) {
      assert ReadPosted(disk, c, w);
    }
  }

  /** Restarting reads or finishing restores the pipeline after bytes left the queue. */
  lemma ContinueKeeps(disk: Disk, c: ClientId, v: View, plan: seq<int>)
    requires StreamInv(disk, v.cl) && FlagsInv(v.cl) && Phase(disk, c, v)
    requires |v.cl.deq| <= PIPELINE && (v.cl.reading ==> PipelineInv(v.cl))
    requires v.cl.handle.Some? || !Finished(v.cl)
    requires v.cl.handle.Some? && v.cl.deq == [] ==> v.cl.live
    ensures ClientInv(disk, c, After(v, Continue(c, v.cl, plan)))
  {
    hide Unsent;
    var o := Continue(c, v.cl, plan);
    var w := After(v, o);
    if v.cl.handle.Some? && !v.cl.reading {
      assert AtRest(c, v);
      if Finished(v.cl) {
        assert CloseQueued(c, w);
      } else if |v.cl.deq| < PIPELINE && v.cl.curPos < v.cl.fileSize {
        assert TheRead(c, w.cl) == TheRead(c, v.cl);
        assert ReadQueued(c, w);
      } else {
        assert w == v.(ops := v.ops + []);
      }
    } else {
      assert w == v;
    }
  }

  lemma WritableKeeps(disk: Disk, c: ClientId, v: View, plan: seq<int>)
    requires ClientInv(disk, c, v) && v.cl.live
    ensures ClientInv(disk, c, After(v, OnWritable(c, v.cl, plan)))
  {
    hide Unsent, Flush;
    SentKeepsStream(v.cl, plan);
    var sent := v.(cl := Sent(v.cl, plan));
    assert v.cl.curPos < v.cl.fileSize ==> TheRead(c, v.cl) == TheRead(c, sent.cl);
    assert Phase(disk, c, sent);
    if sent.cl.waitingClose && sent.cl.deq == [] {
      assert sent.cl.handle.None?;
      assert AtRest(c, v);
      assert AtRest(c, After(v, OnWritable(c, v.cl, plan)));
    } else {
      ContinueKeeps(disk, c, sent, PlanLeft(v.cl, plan));
      assert After(sent, Continue(c, sent.cl, PlanLeft(v.cl, plan))) == After(v, OnWritable(c, v.cl, plan));
    }
  }

  /** Delivering a completion takes it off the list. */
  function Taken(v: View): View
    requires v.posted != []
  {
    v.(posted := v.posted[1..])
  }

  lemma OpenDoneKeeps(disk: Disk, c: ClientId, v: View, plan: seq<int>)
    requires ClientInv(disk, c, v) && v.posted != [] && v.posted[0].OpenDone?
    ensures ClientInv(disk, c, After(Taken(v), OnOpenDone(c, v.cl, v.posted[0].handle, v.posted[0].size, plan)))
  {
    hide Unsent, Flush;
    assert OpenPosted(disk, c, v);
    var done := v.posted[0];
    if done.handle.None? {
      RefuseKeeps(disk, c, Taken(v), NotFoundReply(), plan);
    } else {
      var head := ReplyHead(v.cl.reqPos, done.size);
      var cl := v.cl.(handle := done.handle, fileSize := done.size, started := true, head := head);
      hide ReplyHead;
      EmptyUnsent();
      PushExtendsStream(cl, head);
      SentKeepsStream(Push(cl, head), plan);
      var sent := Sent(Push(cl, head), plan);
      assert Body(disk[cl.path], cl.reqPos, cl.curPos) == [];
      var w := After(Taken(v), StartRead(c, sent, PlanLeft(Push(cl, head), plan)));
      if sent.curPos < sent.fileSize {
        assert TheRead(c, w.cl) == TheRead(c, sent);
        assert ReadQueued(c, w);
      } else {
        assert AtRest(c, w);
      }
    }
  }

  /** A failed read: the file is let go of, and the connection closed. */
  lemma ReadFailedKeeps(disk: Disk, c: ClientId, v: View, plan: seq<int>)
    requires ClientInv(disk, c, v) && v.posted == [ReadDone(c, None)]
    ensures ClientInv(disk, c, After(Taken(v), OnReadDone(c, v.cl, None, plan)))
  {
    hide StreamInv;
    var w := After(Taken(v), OnReadDone(c, v.cl, None, plan));
    assert StreamInv(disk, w.cl) by { SameStream(disk, v.cl, w.cl); }
    if ReadPosted(disk, c, v) {
      assert v.cl.handle.Some? ==> CloseQueued(c, w);
      assert v.cl.handle.None? ==> NullQueued(c, w);
    } else {
      assert CloseLost(disk, c, v);
      assert NullQueued(c, w);
    }
  }

  lemma SameStream(disk: Disk, a: Client, b: Client)
    requires StreamInv(disk, a)
    requires b == a.(reading := b.reading, handle := b.handle, live := b.live, abandoned := b.abandoned)
    ensures StreamInv(disk, b)
  {
  }

  /** The fields once a block has been queued and sent, before the handler goes on. */
  function Blocked(cl: Client, block: Block, plan: seq<int>): Client {
    var sent := Sent(Push(cl.(reading := false), block), plan);
    sent.(curPos := sent.curPos + |block|)
  }

  lemma PostedIsAnswer(disk: Disk, c: ClientId, v: View, block: Block)
    requires Phase(disk, c, v) && v.posted == [ReadDone(c, Some(block))]
    ensures Answered(disk, c, v)
  {
  }

  lemma BlockExtendsStream(disk: Disk, c: ClientId, v: View, block: Block, plan: seq<int>)
    requires ClientInv(disk, c, v) && v.posted == [ReadDone(c, Some(block))]
    ensures StreamInv(disk, Blocked(v.cl, block, plan)) && FlagsInv(Blocked(v.cl, block, plan))
    ensures var cl := Blocked(v.cl, block, plan);
      && cl == v.cl.(reading := false, deq := cl.deq, accepted := cl.accepted, curPos := v.cl.curPos + |block|)
      && |cl.deq| <= PIPELINE
      && (!cl.live ==> cl.deq != [])
  {
    PostedIsAnswer(disk, c, v, block);
    hide Unsent, Flush, Phase;
    var cl := v.cl.(reading := false);
    PushExtendsStream(cl, block);
    SentKeepsStream(Push(cl, block), plan);
    BodyExtends(disk[cl.path], cl.reqPos, cl.curPos, block);
    Regroup(cl.head, Body(disk[cl.path], cl.reqPos, cl.curPos), block);
  }

  lemma BlockPhase(disk: Disk, c: ClientId, v: View, block: Block, plan: seq<int>)
    requires ClientInv(disk, c, v) && v.posted == [ReadDone(c, Some(block))]
    requires var cl := Blocked(v.cl, block, plan);
             cl == v.cl.(reading := false, deq := cl.deq, accepted := cl.accepted, curPos := v.cl.curPos + |block|)
    ensures Phase(disk, c, Taken(v).(cl := Blocked(v.cl, block, plan)))
  {
    hide StreamInv, Blocked;
    var next := Taken(v).(cl := Blocked(v.cl, block, plan));
    assert next.posted == [] && v.cl.started;
    if ReadPosted(disk, c, v) {
      assert v.ops == [] ==> AtRest(c, next);
      assert v.ops != [] ==> CloseQueued(c, next);
    } else {
      assert CloseLost(disk, c, v);
      assert CloseLost(disk, c, next);
    }
  }

  lemma ReadDoneKeeps(disk: Disk, c: ClientId, v: View, plan: seq<int>)
    requires ClientInv(disk, c, v) && v.posted != [] && v.posted[0].ReadDone?
    ensures ClientInv(disk, c, After(Taken(v), OnReadDone(c, v.cl, v.posted[0].data, plan)))
  {
    assert |v.posted| == 1 && v.posted[0].owner == c;
    match v.posted[0].data
    case None =>
      assert v.posted == [ReadDone(c, None)];
      ReadFailedKeeps(disk, c, v, plan);
    case Some(block) =>
      assert v.posted == [ReadDone(c, Some(block))];
      BlockExtendsStream(disk, c, v, block, plan);
      BlockPhase(disk, c, v, block, plan);
      var next := Taken(v).(cl := Blocked(v.cl, block, plan));
      var left := PlanLeft(Push(v.cl.(reading := false), block), plan);
      assert OnReadDone(c, v.cl, Some(block), plan) == Continue(c, next.cl, left);
      assert !Finished(next.cl) || next.cl.handle.Some?;
      hide *;
      ContinueKeeps(disk, c, next, left);
      assert After(next, Continue(c, next.cl, left)) == After(Taken(v), Continue(c, next.cl, left));
  }

  /** A full queue refuses the operation pushed last, and nobody looks. */
  function Dropped(v: View): View
    requires v.ops != []
  {
    var last := |v.ops| - 1;
    v.(ops := v.ops[..last], lost := v.lost + {v.ops[last]})
  }

  /** Losing an operation keeps the invariant, which says what becomes of the connection. */
  lemma LosingKeeps(disk: Disk, c: ClientId, v: View)
    requires ClientInv(disk, c, v) && v.ops != []
    ensures ClientInv(disk, c, Dropped(v))
  {
    hide StreamInv;
    var w := Dropped(v);
    if OpenQueued(c, v) {
      assert OpenLost(c, w);
    } else if ReadQueued(c, v) {
      assert v.cl.handle.Some? ==> ReadLost(c, w);
      assert v.cl.handle.None? ==> w.ops == [TheRead(c, v.cl)] && CloseLost(disk, c, w);
    } else if ReadPosted(disk, c, v) {
      assert CloseLost(disk, c, w);
    } else if CloseQueued(c, v) {
      assert CloseLost(disk, c, w);
    } else if NullQueued(c, v) {
      assert |v.ops| == 2 ==> CloseQueued(c, w);
      assert |v.ops| == 1 && v.lost == {} ==> AtRest(c, w);
      assert |v.ops| == 1 && v.lost != {} ==> CloseLost(disk, c, w);
    } else {
      assert ReadLost(c, v) || CloseLost(disk, c, v);
      assert ReadLost(c, w);
    }
  }
}
