/** What the file server does not guarantee: each failure with the exact condition for it. */
module FileServerLimits {
  import opened Streams
  import opened Transport
  import opened HttpText
  import opened DownloadClient
  import opened FileThread
  import opened DownloadInvariant
  import opened DownloadSteps
  import opened FileServer
  import opened FileServerTheorems

  // A crash of the file thread.

  lemma {:induction false} OpsOfHasAll(ops: seq<FileOp>, i: nat)
    requires i < |ops|
    ensures ops[i] in OpsOf(ops, ops[i].owner)
  {
    OpsOfHead(ops, ops[i].owner);
    if i > 0 {
      OpsOfHasAll(ops[1..], i - 1);
    }
  }

  ghost predicate HasNullClose(ops: seq<FileOp>) {
    exists i :: 0 <= i < |ops| && ops[i].Close? && ops[i].handle.None?
  }

  /** A failed read reported to a connection that has already let go of its handle. */
  predicate Orphan(s: Server, e: Event) {
    && e.Deliver? && s.posted != []
    && s.posted[0].ReadDone? && s.posted[0].data.None?
    && s.posted[0].owner in s.clients && s.clients[s.posted[0].owner].handle.None?
  }

  /** The file thread has used a null handle, or is going to. */
  ghost predicate Crashed(s: Server) { s.thread.faulted || HasNullClose(s.ops) }

  lemma CloseHasHandle(c: ClientId, cl: Client, plan: seq<int>)
    ensures !HasNullClose(CloseClient(c, cl, plan).ops) && !HasNullClose(StartRead(c, cl, plan).ops)
    ensures !HasNullClose(Continue(c, cl, plan).ops)
  {
  }

  lemma RepliesClose(c: ClientId, cl: Client, reply: Block, plan: seq<int>)
    ensures !HasNullClose(Refuse(c, cl, reply, plan).ops) && !HasNullClose(OnWritable(c, cl, plan).ops)
  {
    hide CloseClient, Continue, Sent, HasNullClose, PlanLeft;
    var queued := Push(cl.(waitingClose := true, head := reply), reply);
    CloseHasHandle(c, Sent(queued, plan), PlanLeft(queued, plan));
    CloseHasHandle(c, Sent(cl, plan), PlanLeft(cl, plan));
    NoneIsNull();
  }

  lemma NoneIsNull()
    ensures !HasNullClose([])
  {
  }

  /** Only a failed read reported without a handle closes a null handle. */
  lemma CompletionsClose(posted: Posted, cl: Client, plan: seq<int>)
    ensures HasNullClose(HandlePosted(posted, cl, plan).ops) <==>
              posted.ReadDone? && posted.data.None? && cl.handle.None?
  {
    hide CloseClient, Continue, Sent, PlanLeft, StartRead, Refuse, ReplyHead, NotFoundReply;
    match posted
    case OpenDone(c, handle, size) =>
      RepliesClose(c, cl, NotFoundReply(), plan);
      if handle.Some? {
        var head := ReplyHead(cl.reqPos, size);
        var queued := Push(cl.(handle := handle, fileSize := size, started := true, head := head), head);
        CloseHasHandle(c, Sent(queued, plan), PlanLeft(queued, plan));
      }
    case ReadDone(c, data) =>
      if data.Some? {
        var queued := Push(cl.(reading := false), data.value);
        var sent := Sent(queued, plan);
        CloseHasHandle(c, sent.(curPos := sent.curPos + |data.value|), PlanLeft(queued, plan));
      } else {
        var ops := HandlePosted(posted, cl, plan).ops;
        assert ops == [Close(c, cl.handle)] && ops[0] == Close(c, cl.handle);
      }
  }

  /** An event pushes a close of a null handle exactly when it reports a failed read to a connection
      that has let go of its handle. */
  lemma PushesNullClose(s: Server, e: Event)
    ensures HasNullClose(Pushed(s, e)) <==> Orphan(s, e)
  {
    hide HandlePosted, OnWritable, Refuse, CloseClient, HasNullClose, BadRequestReply;
    NoneIsNull();
    if Enabled(s, e) {
      match e
      case Connect(_) =>
      case Work(_) =>
      case Request(c, path, offset) => OpenIsNoClose(c, s.clients[c], path, offset);
      case BadRequest(c, message, plan) =>
        RepliesClose(c, s.clients[c].(requested := true), BadRequestReply(message), plan);
      case Writable(c, plan) => RepliesClose(c, s.clients[c], BadRequestReply([]), plan);
      case Broken(c) => CloseHasHandle(c, s.clients[c], []);
      case Deliver(plan) => CompletionsClose(s.posted[0], s.clients[s.posted[0].owner], plan);
    }
  }

  lemma OpenIsNoClose(c: ClientId, cl: Client, path: Path, offset: nat)
    ensures !HasNullClose(OnRequest(c, cl, path, offset).ops)
  {
  }

  lemma NullCloseAppend(a: seq<FileOp>, b: seq<FileOp>)
    ensures HasNullClose(a + b) <==> HasNullClose(a) || HasNullClose(b)
  {
    var all := a + b;
    if HasNullClose(a) {
      var i :| 0 <= i < |a| && a[i].Close? && a[i].handle.None?;
      assert all[i] == a[i];
    }
    if HasNullClose(b) {
      var i :| 0 <= i < |b| && b[i].Close? && b[i].handle.None?;
      assert all[|a| + i] == b[i];
    }
  }

  lemma ExecFaults(disk: Disk, s: Server, n: nat)
    requires Good(disk, s) && s.ops != [] && !s.thread.faulted
    ensures Exec(disk, s.thread, s.ops[0], n).thread.faulted <==> HasNullClose([s.ops[0]])
  {
    var c := s.ops[0].owner;
    OpsOfHead(s.ops, c);
    OpFindsItsFile(disk, s.thread, ViewOf(s, c), c);
    hide OpsOf, PostedOf, ClientInv;
    assert [s.ops[0]][0] == s.ops[0];
  }

  /** A queued close of a null handle stays queued until it crashes the file thread, and nothing else
      does that. */
  lemma CrashStep(disk: Disk, s: Server, e: Event)
    requires Good(disk, s)
    ensures Crashed(Next(disk, s, e)) <==> Crashed(s) || (Orphan(s, e) && !Overfills(s, e))
  {
    if e.Work? {
      WorkCrashes(disk, s, e.n);
    } else {
      PushesNullClose(s, e);
      hide Good, HasNullClose, Handled, Orphan;
      PushCrashes(disk, s, e);
      NoneIsNull();
    }
  }

  lemma WorkCrashes(disk: Disk, s: Server, n: nat)
    requires Good(disk, s)
    ensures Crashed(Next(disk, s, Work(n))) <==> Crashed(s)
  {
    if Enabled(s, Work(n)) {
      ExecFaults(disk, s, n);
      hide Good, HasNullClose, Exec;
      assert s.ops == [s.ops[0]] + s.ops[1..];
      NullCloseAppend([s.ops[0]], s.ops[1..]);
    }
  }

  lemma PushCrashes(disk: Disk, s: Server, e: Event)
    requires !e.Work?
    ensures Crashed(Next(disk, s, e)) <==>
              Crashed(s) || (HasNullClose(Pushed(s, e)) && !Overfills(s, e))
  {
    hide HasNullClose, Next, Handled, PushOps, Enabled;
    NoneIsNull();
    QueueAfter(disk, s, e);
    assert |Pushed(s, e)| <= 1 by {
      if Pushed(s, e) != [] { HandledOwns(s, e); }
    }
    PushedOrRefused(s.ops, Pushed(s, e));
    NullCloseAppend(s.ops, Pushed(s, e));
    assert s.ops + [] == s.ops;
  }

  /** Event `i` reports a failed read to a connection that has let go of its handle, and the queue
      takes the close that follows. */
  ghost predicate OrphanedAt(disk: Disk, es: seq<Event>, i: nat)
    requires i < |es|
  {
    Orphan(Reached(disk, es[..i]), es[i]) && !Overfills(Reached(disk, es[..i]), es[i])
  }

  ghost predicate Orphaned(disk: Disk, es: seq<Event>) { exists i :: 0 <= i < |es| && OrphanedAt(disk, es, i) }

  lemma OrphanedSnoc(disk: Disk, es: seq<Event>)
    requires es != []
    ensures var init, e := es[..|es| - 1], es[|es| - 1];
      Orphaned(disk, es)
      <==> Orphaned(disk, init) || (Orphan(Reached(disk, init), e) && !Overfills(Reached(disk, init), e))
  {
    hide Reached, Overfills, Orphan;
    var init := es[..|es| - 1];
    assert es[..|init|] == init;
    assert OrphanedAt(disk, es, |init|)
      <==> Orphan(Reached(disk, init), es[|init|]) && !Overfills(Reached(disk, init), es[|init|]);
    forall i | 0 <= i < |init| ensures OrphanedAt(disk, es, i) <==> OrphanedAt(disk, init, i) {
      assert es[..i] == init[..i];
    }
    hide OrphanedAt;
  }

  /** Over every run: the file thread has used a null handle, or has one in its queue to use, exactly
      when a failed read was reported to a connection that had let go of its handle while the queue
      had room. */
  lemma {:induction false} CrashesExactlyWhenOrphaned(disk: Disk, es: seq<Event>)
    ensures Crashed(Reached(disk, es)) <==> Orphaned(disk, es)
    decreases |es|
  {
    if es == [] {
      NoneIsNull();
    } else {
      hide Next, Overfills, Orphan, Crashed, Good, Run, Orphaned;
      var init := es[..|es| - 1];
      CrashesExactlyWhenOrphaned(disk, init);
      LastEvent(disk, es);
      ReachedIsGood(disk, init);
      CrashStep(disk, Reached(disk, init), es[|init|]);
      OrphanedSnoc(disk, es);
    }
  }

  /** Once it has used one, no operation is executed any more, in any further run. */
  lemma {:induction false} CrashIsForever(disk: Disk, s: Server, es: seq<Event>)
    requires s.thread.faulted
    ensures Run(disk, s, es).thread == s.thread && s.ops <= Run(disk, s, es).ops
    decreases |es|
  {
    if es != [] {
      hide Handled, Exec;
      CrashIsForever(disk, Next(disk, s, es[0]), es[1..]);
    }
  }

  // A connection with nothing to wait for.

  /** A live connection that has asked, and for which nothing is under way: nothing queued or posted,
      and not a byte to send. */
  ghost predicate Stalled(s: Server, c: ClientId) {
    && c in s.clients && s.clients[c].live && s.clients[c].requested && s.clients[c].deq == []
    && OpsOf(s.ops, c) == [] && PostedOf(s.posted, c) == []
  }

  /** The full queue has refused the open of the connection, or the read it is waiting for. */
  ghost predicate WaitsForRefused(disk: Disk, es: seq<Event>, c: ClientId, cl: Client) {
    || Refused(disk, es, Open(c, cl.path))
    || (cl.reading && cl.curPos < cl.fileSize && Refused(disk, es, TheRead(c, cl)))
  }

  lemma StalledPhase(disk: Disk, c: ClientId, v: View)
    requires ClientInv(disk, c, v) && v.cl.live && v.cl.requested && v.cl.deq == []
    ensures v.ops == [] && v.posted == [] <==>
      || Open(c, v.cl.path) in v.lost
      || (v.cl.reading && v.cl.curPos < v.cl.fileSize && TheRead(c, v.cl) in v.lost)
      || (v.cl.started && v.cl.reqPos >= v.cl.fileSize)
  {
    hide StreamInv;
    if v.cl.started { StartedPosition(disk, v.cl); }
  }

  lemma StartedPosition(disk: Disk, cl: Client)
    requires StreamInv(disk, cl) && cl.started
    ensures cl.reqPos <= cl.curPos && (cl.curPos <= cl.fileSize || cl.curPos == cl.reqPos)
  {
  }

  /** Over every run: a live connection that has asked, and whose bytes have all gone out, has nothing
      under way exactly when its request starts at or beyond the end of the file, or the full queue
      has refused its open or its read. */
  lemma StallsExactlyWhen(disk: Disk, es: seq<Event>, c: ClientId)
    requires c in Reached(disk, es).clients
    requires var cl := Reached(disk, es).clients[c]; cl.live && cl.requested && cl.deq == []
    ensures var cl := Reached(disk, es).clients[c];
      Stalled(Reached(disk, es), c) <==>
        (cl.started && cl.reqPos >= cl.fileSize) || WaitsForRefused(disk, es, c, cl)
  {
    var s := Reached(disk, es);
    var cl := s.clients[c];
    ReachedIsGood(disk, es);
    StalledPhase(disk, c, ViewOf(s, c));
    LostExactlyWhenRefused(disk, es, Open(c, cl.path));
    if cl.curPos < cl.fileSize { LostExactlyWhenRefused(disk, es, TheRead(c, cl)); }
    hide ClientInv, Refused, Run;
  }

  /** The one stall a write event ends: the request starts right at the end of a file that is not
      empty. */
  predicate AtTheEnd(cl: Client) { cl.started && cl.reqPos == cl.fileSize > 0 }

  lemma StalledFields(disk: Disk, s: Server, c: ClientId)
    requires Good(disk, s) && Stalled(s, c)
    ensures !s.clients[c].waitingClose
    ensures Finished(s.clients[c]) <==> AtTheEnd(s.clients[c])
    ensures s.clients[c].handle.None? || s.clients[c].reading || s.clients[c].curPos >= s.clients[c].fileSize
  {
    var v := ViewOf(s, c);
    assert ClientInv(disk, c, v);
    hide StreamInv;
    if v.cl.started { StartedPosition(disk, v.cl); }
  }

  lemma WritesNothing(c: ClientId, cl: Client, plan: seq<int>)
    requires cl.live && cl.deq == [] && !cl.waitingClose
    ensures OnWritable(c, cl, plan) == Continue(c, cl, plan)
  {
    assert cl.accepted + [] == cl.accepted;
    assert Sent(cl, plan) == cl && PlanLeft(cl, plan) == plan;
  }

  lemma ContinuesWithNothing(c: ClientId, cl: Client, plan: seq<int>)
    requires cl.live && cl.deq == []
    requires cl.handle.None? || cl.reading || cl.curPos >= cl.fileSize
    ensures if Finished(cl) then !Continue(c, cl, plan).cl.live else Continue(c, cl, plan) == Outcome(cl, [], plan)
  {
  }

  lemma StalledWrite(disk: Disk, s: Server, c: ClientId, plan: seq<int>)
    requires Good(disk, s) && Stalled(s, c)
    ensures var cl, t := s.clients[c], Next(disk, s, Writable(c, plan));
      && c in t.clients
      && (!t.clients[c].live <==> AtTheEnd(cl))
      && (t.clients[c].live ==> t == s)
  {
    hide Good, OpsOf, PostedOf, Continue, OnWritable, Finished, AtTheEnd, Apply;
    StalledFields(disk, s, c);
    WritesNothing(c, s.clients[c], plan);
    ContinuesWithNothing(c, s.clients[c], plan);
    AppliesNothing(s, c, plan);
    AppliesClient(s, c, OnWritable(c, s.clients[c], plan));
  }

  lemma AppliesClient(s: Server, c: ClientId, o: Outcome)
    ensures c in Apply(s, c, o).clients && Apply(s, c, o).clients[c] == o.cl
  {
    hide PushOps;
  }

  lemma AppliesNothing(s: Server, c: ClientId, plan: seq<int>)
    requires c in s.clients
    ensures Apply(s, c, Outcome(s.clients[c], [], plan)) == s
  {
    PushedOrRefused(s.ops, []);
    hide PushOps;
    assert s.clients[c := s.clients[c]] == s.clients && s.lost + (set op: FileOp | op in []) == s.lost;
  }

  /** Over every run: a write event ends a stall, by closing, exactly when the request started right
      at the end of a file that is not empty; otherwise it changes nothing at all. */
  lemma WriteEventEndsStall(disk: Disk, es: seq<Event>, c: ClientId, plan: seq<int>)
    requires Stalled(Reached(disk, es), c)
    ensures var s := Reached(disk, es);
            var t := Next(disk, s, Writable(c, plan));
      && c in t.clients
      && (!t.clients[c].live <==> AtTheEnd(s.clients[c]))
      && (t.clients[c].live ==> t == s)
  {
    ReachedIsGood(disk, es);
    StalledWrite(disk, Reached(disk, es), c, plan);
  }

  lemma StallStep(disk: Disk, s: Server, c: ClientId, e: Event)
    requires Good(disk, s) && Stalled(s, c) && !AtTheEnd(s.clients[c]) && e != Broken(c)
    ensures Stalled(Next(disk, s, e), c) && Next(disk, s, e).clients[c] == s.clients[c]
  {
    if e.Writable? && e.c == c {
      StalledWrite(disk, s, c, e.plan);
    } else if Enabled(s, e) {
      hide OpsOf, PostedOf, Registered, LostOf, Good;
      if e.Work? { OpsOfHead(s.ops, c); }
      if e.Deliver? { PostedOfHead(s.posted, c); }
      hide Next;
      OthersUntouched(disk, s, e, c);
    }
  }

  lemma {:induction false} StallStays(disk: Disk, s: Server, c: ClientId, es: seq<Event>)
    requires Good(disk, s) && Stalled(s, c) && !AtTheEnd(s.clients[c]) && Broken(c) !in es
    ensures Stalled(Run(disk, s, es), c) && Run(disk, s, es).clients[c] == s.clients[c]
    decreases |es|
  {
    if es != [] {
      hide Next, Good, OpsOf, PostedOf;
      StallStep(disk, s, c, es[0]);
      NextKeeps(disk, s, es[0]);
      StallStays(disk, Next(disk, s, es[0]), c, es[1..]);
    }
  }

  /** Every other stall lasts: nothing whatever happens to the connection, in any further run, until
      its peer breaks it. */
  lemma StallLastsUntilBroken(disk: Disk, es: seq<Event>, c: ClientId, more: seq<Event>)
    requires Stalled(Reached(disk, es), c) && !AtTheEnd(Reached(disk, es).clients[c]) && Broken(c) !in more
    ensures var s, t := Reached(disk, es), Run(disk, Reached(disk, es), more);
      Stalled(t, c) && t.clients[c] == s.clients[c]
  {
    ReachedIsGood(disk, es);
    StallStays(disk, Reached(disk, es), c, more);
  }

  // A file kept open.

  /** A successful open is reported to a connection that is already closed. */
  predicate OpensLate(s: Server, e: Event, c: ClientId) {
    && e.Deliver? && s.posted != [] && s.posted[0].owner == c && s.posted[0].OpenDone?
    && s.posted[0].handle.Some? && c in s.clients && !s.clients[c].live
  }

  /** A failed read is reported. */
  predicate FailsRead(s: Server, e: Event, c: ClientId) {
    && e.Deliver? && s.posted != [] && s.posted[0].owner == c && s.posted[0].ReadDone?
    && s.posted[0].data.None? && c in s.clients
  }

  /** Event `i` opened late, and no failed read was reported since. */
  ghost predicate KeptSince(disk: Disk, es: seq<Event>, i: nat, c: ClientId)
    requires i < |es|
  {
    && OpensLate(Reached(disk, es[..i]), es[i], c)
    && forall j :: i < j < |es| ==> !FailsRead(Reached(disk, es[..j]), es[j], c)
  }

  /** A closed connection that holds a handle. */
  predicate Holds(s: Server, c: ClientId) { c in s.clients && !s.clients[c].live && s.clients[c].handle.Some? }

  lemma ClosersLetGo(c: ClientId, cl: Client, plan: seq<int>, path: Path, offset: nat, message: seq<byte>)
    requires cl.live
    ensures var o := CloseClient(c, cl, plan).cl; !o.live && o.handle.None?
    ensures var o := OnWritable(c, cl, plan).cl; !o.live ==> o.handle.None?
    ensures var o := OnBadRequest(c, cl, message, plan).cl; !o.live ==> o.handle.None?
    ensures OnRequest(c, cl, path, offset).cl.live
  {
    hide Flush;
  }

  lemma ClosedSendsNothing(cl: Client, data: Block, plan: seq<int>)
    requires !cl.live
    ensures var sent := Sent(Push(cl, data), plan); sent == Push(cl, data) && sent.deq != []
  {
    var f := Flush(false, Push(cl, data).deq, plan);
    assert cl.accepted + f.sent == cl.accepted;
  }

  lemma RefusalHolds(c: ClientId, cl: Client, reply: Block, plan: seq<int>)
    ensures var o := Refuse(c, cl, reply, plan).cl;
            !o.live && o.handle.Some? <==> !cl.live && cl.handle.Some?
  {
    if !cl.live { ClosedSendsNothing(cl.(waitingClose := true, head := reply), reply, plan); }
    hide Flush, Unsent;
  }

  lemma OpenDoneHolds(c: ClientId, cl: Client, handle: Option<Path>, size: nat, plan: seq<int>)
    ensures var o := OnOpenDone(c, cl, handle, size, plan).cl;
            !o.live && o.handle.Some? <==> !cl.live && (handle.Some? || cl.handle.Some?)
  {
    RefusalHolds(c, cl, NotFoundReply(), plan);
    hide Flush, ReplyHead, NotFoundReply, Unsent, Refuse;
  }

  lemma ContinueHolds(c: ClientId, cl: Client, plan: seq<int>)
    requires !cl.live ==> cl.deq != []
    ensures var o := Continue(c, cl, plan).cl;
            !o.live && o.handle.Some? <==> !cl.live && cl.handle.Some?
  {
  }

  lemma ReadDoneHolds(c: ClientId, cl: Client, data: Option<Block>, plan: seq<int>)
    ensures var o := OnReadDone(c, cl, data, plan).cl;
            !o.live && o.handle.Some? <==> !cl.live && cl.handle.Some? && data.Some?
  {
    if data.Some? {
      var bytes := data.value;
      var queued := Push(cl.(reading := false), bytes);
      if !cl.live { ClosedSendsNothing(cl.(reading := false), bytes, plan); }
      var sent := Sent(queued, plan);
      hide Sent, Continue, PlanLeft, Push;
      assert sent.live == cl.live && sent.handle == cl.handle by {
        SentKeepsStream(queued, plan);
        PushKeeps(cl, bytes);
      }
      ContinueHolds(c, sent.(curPos := sent.curPos + |bytes|), PlanLeft(queued, plan));
    }
  }

  lemma PushKeeps(cl: Client, data: Block)
    ensures var q := Push(cl.(reading := false), data); q.live == cl.live && q.handle == cl.handle
  {
  }

  lemma CompletionHolds(c: ClientId, cl: Client, posted: Posted, plan: seq<int>)
    ensures var o := HandlePosted(posted, cl, plan).cl;
      !o.live && o.handle.Some? <==>
        !cl.live && (if posted.OpenDone? then posted.handle.Some? || cl.handle.Some?
                     else posted.data.Some? && cl.handle.Some?)
  {
    hide OnOpenDone, OnReadDone;
    match posted
    case OpenDone(d, handle, size) => OpenDoneHolds(d, cl, handle, size, plan);
    case ReadDone(d, data) => ReadDoneHolds(d, cl, data, plan);
  }

  lemma HoldsStep(disk: Disk, s: Server, e: Event, c: ClientId)
    ensures Holds(Next(disk, s, e), c) <==> OpensLate(s, e, c) || (Holds(s, c) && !FailsRead(s, e, c))
  {
    hide OnRequest, OnBadRequest, OnWritable, CloseClient, HandlePosted, Exec, PushOps;
    if Enabled(s, e) {
      match e
      case Connect(_) =>
      case Request(d, path, offset) => ClosersLetGo(d, s.clients[d], [], path, offset, []);
      case BadRequest(d, message, plan) => ClosersLetGo(d, s.clients[d], plan, "", 0, message);
      case Writable(d, plan) => ClosersLetGo(d, s.clients[d], plan, "", 0, []);
      case Broken(d) => ClosersLetGo(d, s.clients[d], [], "", 0, []);
      case Work(_) =>
      case Deliver(plan) => CompletionHolds(s.posted[0].owner, s.clients[s.posted[0].owner], s.posted[0], plan);
    }
  }

  lemma {:induction false} HoldsWhen(disk: Disk, es: seq<Event>, c: ClientId)
    ensures Holds(Reached(disk, es), c) <==> exists i :: 0 <= i < |es| && KeptSince(disk, es, i, c)
    decreases |es|
  {
    if es != [] {
      var init := es[..|es| - 1];
      var last := |init|;
      HoldsWhen(disk, init, c);
      LastEvent(disk, es);
      HoldsStep(disk, Reached(disk, init), es[last], c);
      hide Next, Run, OpensLate, FailsRead, Holds;
      assert es[..last] == init;
      assert KeptSince(disk, es, last, c) <==> OpensLate(Reached(disk, init), es[last], c);
      forall i | 0 <= i < last
        ensures KeptSince(disk, es, i, c) <==>
                  KeptSince(disk, init, i, c) && !FailsRead(Reached(disk, init), es[last], c)
      {
        KeptLonger(disk, es, i, c);
      }
    }
  }

  lemma KeptLonger(disk: Disk, es: seq<Event>, i: nat, c: ClientId)
    requires es != [] && i < |es| - 1
    ensures var init := es[..|es| - 1];
      KeptSince(disk, es, i, c) <==> KeptSince(disk, init, i, c) && !FailsRead(Reached(disk, init), es[|init|], c)
  {
    hide Run, OpensLate, FailsRead;
    var init := es[..|es| - 1];
    assert forall j :: 0 <= j < |init| ==> es[..j] == init[..j] && es[j] == init[j];
    assert es[..|init|] == init;
  }

  /** Over every run: a closed connection with nothing queued and nothing posted still keeps a file
      open exactly when, after it was closed, a successful open was reported to it and no failed
      read was reported since, or the full queue has refused its close. */
  lemma KeepsFileExactlyWhen(disk: Disk, es: seq<Event>, c: ClientId)
    requires c in Reached(disk, es).clients && !Reached(disk, es).clients[c].live
    requires OpsOf(Reached(disk, es).ops, c) == [] && PostedOf(Reached(disk, es).posted, c) == []
    ensures Registered(Reached(disk, es).thread, c) != {} <==>
      || (exists i :: 0 <= i < |es| && KeptSince(disk, es, i, c))
      || Refused(disk, es, Close(c, Some(Reached(disk, es).clients[c].path)))
  {
    var s := Reached(disk, es);
    ReachedIsGood(disk, es);
    HoldsWhen(disk, es, c);
    LostExactlyWhenRefused(disk, es, TheClose(c, s.clients[c]));
    KeptPhase(disk, c, ViewOf(s, c));
    hide KeptSince, Run, Refused, ClientInv;
  }

  lemma KeptPhase(disk: Disk, c: ClientId, v: View)
    requires ClientInv(disk, c, v) && !v.cl.live && v.ops == [] && v.posted == []
    ensures v.reg != {} <==> v.cl.handle.Some? || TheClose(c, v.cl) in v.lost
  {
    hide StreamInv;
  }

  /** A closed connection that nothing is under way for, and that is still registered. */
  ghost predicate Leaked(s: Server, c: ClientId) {
    && c in s.clients && !s.clients[c].live && Registered(s.thread, c) != {}
    && OpsOf(s.ops, c) == [] && PostedOf(s.posted, c) == []
  }

  lemma LeakStep(disk: Disk, s: Server, c: ClientId, e: Event)
    requires Leaked(s, c)
    ensures Leaked(Next(disk, s, e), c) && Registered(Next(disk, s, e).thread, c) == Registered(s.thread, c)
  {
    hide OpsOf, PostedOf, Registered;
    if Enabled(s, e) {
      if e.Work? { OpsOfHead(s.ops, c); }
      if e.Deliver? { PostedOfHead(s.posted, c); }
      hide Next;
      OthersUntouched(disk, s, e, c);
    }
  }

  lemma {:induction false} LeakStays(disk: Disk, s: Server, c: ClientId, es: seq<Event>)
    requires Leaked(s, c)
    ensures Leaked(Run(disk, s, es), c) && Registered(Run(disk, s, es).thread, c) == Registered(s.thread, c)
    decreases |es|
  {
    if es != [] {
      hide Leaked, Next, Registered;
      LeakStep(disk, s, c, es[0]);
      LeakStays(disk, Next(disk, s, es[0]), c, es[1..]);
    }
  }

  /** A connection that still keeps its file when nothing is under way for it keeps it open for
      ever, whatever comes. */
  lemma LeakIsForever(disk: Disk, es: seq<Event>, c: ClientId, more: seq<Event>)
    requires Leaked(Reached(disk, es), c)
    ensures var s, t := Reached(disk, es), Run(disk, Reached(disk, es), more);
      && Leaked(t, c) && Registered(t.thread, c) == Registered(s.thread, c)
      && forall p :: p in Registered(t.thread, c) ==> t.thread.files[p].open && t.thread.files[p].operators != {}
  {
    var s := Reached(disk, es);
    LeakStays(disk, s, c, more);
    ReachedIsGood(disk, es);
    RunKeeps(disk, s, more);
    hide Run, OpsOf, PostedOf, ClientInv;
  }
}
