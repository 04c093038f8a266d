/** More than one request on a connection.  The read handler acts on each of them; the runs of the
    whole server allow one.  Here one connection meets its handlers in any order whatever, called any
    number of times and with any arguments. */
module SecondRequest {
  import opened Streams
  import opened Transport
  import opened HttpText
  import opened DownloadClient
  import opened FileThread
  import opened DownloadInvariant
  import opened DownloadSteps

  /** The handlers of a connection. */
  datatype Call =
    | Ask(path: Path, offset: nat)
    | Reject(message: seq<byte>, plan: seq<int>)
    | Write(plan: seq<int>)
    | Break
    | OpenReported(handle: Option<Path>, size: nat, plan: seq<int>)
    | ReadReported(data: Option<Block>, plan: seq<int>)

  function Called(c: ClientId, cl: Client, call: Call): Client {
    match call
    case Ask(path, offset) => OnRequest(c, cl, path, offset).cl
    case Reject(message, plan) => OnBadRequest(c, cl, message, plan).cl
    case Write(plan) => OnWritable(c, cl, plan).cl
    case Break => CloseClient(c, cl, []).cl
    case OpenReported(handle, size, plan) => OnOpenDone(c, cl, handle, size, plan).cl
    case ReadReported(data, plan) => OnReadDone(c, cl, data, plan).cl
  }

  /** A fresh connection after these calls. */
  function AfterCalls(c: ClientId, calls: seq<Call>): Client {
    if calls == [] then NewClient()
    else Called(c, AfterCalls(c, calls[..|calls| - 1]), calls[|calls| - 1])
  }

  // The bytes sent and queued, counted against the reply head and the positions.

  function Total(cl: Client): nat { |cl.accepted| + |Unsent(cl.deq)| }

  /** By how much they exceed the head and the range from the requested position to the current one. */
  function Surplus(cl: Client): int { Total(cl) - |cl.head| - (cl.curPos - cl.reqPos) }

  lemma StreamHasNoSurplus(disk: Disk, cl: Client)
    requires StreamInv(disk, cl)
    ensures Surplus(cl) == 0
  {
    hide ReplyHead;
    if !cl.started && !cl.waitingClose {
      EmptyUnsent();
    }
    hide Unsent;
    assert |cl.accepted + Unsent(cl.deq)| == Total(cl);
  }

  /** Sending moves bytes, and changes nothing else. */
  lemma SendingCounts(cl: Client, plan: seq<int>)
    ensures var r := Sent(cl, plan);
            r == cl.(deq := r.deq, accepted := r.accepted) && Total(r) == Total(cl)
  {
    SentKeepsStream(cl, plan);
    hide Sent, Unsent;
    assert |Sent(cl, plan).accepted + Unsent(Sent(cl, plan).deq)| == |cl.accepted + Unsent(cl.deq)|;
  }

  lemma PushingCounts(cl: Client, data: Block, plan: seq<int>)
    ensures var r := Sent(Push(cl, data), plan);
            r == cl.(deq := r.deq, accepted := r.accepted) && Total(r) == Total(cl) + |data|
  {
    PushExtendsStream(cl, data);
    SendingCounts(Push(cl, data), plan);
    hide Sent, Unsent;
  }

  lemma ClosersCount(c: ClientId, cl: Client, plan: seq<int>)
    ensures Surplus(Continue(c, cl, plan).cl) == Surplus(CloseClient(c, cl, plan).cl) == Surplus(cl)
    ensures Surplus(StartRead(c, cl, plan).cl) == Surplus(cl)
    ensures forall o :: o in {Continue(c, cl, plan).cl, CloseClient(c, cl, plan).cl, StartRead(c, cl, plan).cl} ==>
              o.head == cl.head && o.curPos == cl.curPos && o.reqPos == cl.reqPos
  {
    hide Unsent;
  }

  /** What a call adds to the surplus: a request, the part of the body already queued; an answer, the
      head of the answer before. */
  function Added(cl: Client, call: Call): int {
    match call
    case Ask(_, _) => cl.curPos - cl.reqPos
    case Reject(_, _) => |cl.head|
    case OpenReported(_, _, _) => |cl.head|
    case _ => 0
  }

  predicate IsAnswer(call: Call) { call.Reject? || call.OpenReported? }

  /** What a call keeps and adds. */
  ghost predicate Counts(cl: Client, r: Client, call: Call) {
    && Surplus(r) == Surplus(cl) + Added(cl, call)
    && (cl.reqPos <= cl.curPos ==> r.reqPos <= r.curPos)
    && (r.head != [] <==> cl.head != [] || IsAnswer(call))
  }

  lemma RefusalCounts(c: ClientId, cl: Client, reply: Block, plan: seq<int>)
    ensures var r := Refuse(c, cl, reply, plan).cl;
      && Surplus(r) == Surplus(cl) + |cl.head|
      && r.head == reply && r.curPos == cl.curPos && r.reqPos == cl.reqPos
  {
    var begun := cl.(waitingClose := true, head := reply);
    PushingCounts(begun, reply, plan);
    ClosersCount(c, Sent(Push(begun, reply), plan), PlanLeft(Push(begun, reply), plan));
    hide Sent, Push, PlanLeft, Unsent, CloseClient;
  }

  lemma OpenCounts(c: ClientId, cl: Client, call: Call)
    requires call.OpenReported?
    ensures Counts(cl, Called(c, cl, call), call)
  {
    hide Sent, Push, PlanLeft, Unsent, StartRead, Refuse, ReplyHead, NotFoundReply;
    if call.handle.Some? {
      var head := ReplyHead(cl.reqPos, call.size);
      var begun := cl.(handle := call.handle, fileSize := call.size, started := true, head := head);
      PushingCounts(begun, head, call.plan);
      ClosersCount(c, Sent(Push(begun, head), call.plan), PlanLeft(Push(begun, head), call.plan));
    } else {
      RefusalCounts(c, cl, NotFoundReply(), call.plan);
    }
  }

  lemma ReadCounts(c: ClientId, cl: Client, call: Call)
    requires call.ReadReported?
    ensures Counts(cl, Called(c, cl, call), call)
  {
    hide Sent, Push, PlanLeft, Unsent, Continue, CloseClient;
    match call.data
    case Some(block) =>
      var idle := cl.(reading := false);
      PushingCounts(idle, block, call.plan);
      var sent := Sent(Push(idle, block), call.plan);
      ClosersCount(c, sent.(curPos := sent.curPos + |block|), PlanLeft(Push(idle, block), call.plan));
    case None =>
      ClosersCount(c, cl.(reading := false, handle := None), call.plan);
  }

  lemma CallCounts(c: ClientId, cl: Client, call: Call)
    ensures Counts(cl, Called(c, cl, call), call)
  {
    hide Sent, PlanLeft, Unsent, Continue, CloseClient, Refuse, BadRequestReply, OnOpenDone, OnReadDone;
    match call
    case Ask(_, _) =>
    case Reject(message, plan) => RefusalCounts(c, cl.(requested := true), BadRequestReply(message), plan);
    case Write(plan) =>
      SendingCounts(cl, plan);
      ClosersCount(c, Sent(cl, plan), PlanLeft(cl, plan));
    case Break => ClosersCount(c, cl, []);
    case OpenReported(_, _, _) => OpenCounts(c, cl, call);
    case ReadReported(_, _) => ReadCounts(c, cl, call);
  }

  // Over all calls.

  ghost predicate Answered(calls: seq<Call>) { exists i :: 0 <= i < |calls| && IsAnswer(calls[i]) }

  ghost predicate AnsweredTwice(calls: seq<Call>) {
    exists i, j :: 0 <= i < j < |calls| && IsAnswer(calls[i]) && IsAnswer(calls[j])
  }

  /** Call `i` is a request that comes when part of the body has been queued for the one before. */
  predicate AskedInBodyAt(c: ClientId, calls: seq<Call>, i: nat)
    requires i < |calls|
  {
    calls[i].Ask? && AfterCalls(c, calls[..i]).curPos > AfterCalls(c, calls[..i]).reqPos
  }

  ghost predicate AskedInBody(c: ClientId, calls: seq<Call>) {
    exists i :: 0 <= i < |calls| && AskedInBodyAt(c, calls, i)
  }

  lemma AnsweredSnoc(calls: seq<Call>)
    requires calls != []
    ensures var init, last := calls[..|calls| - 1], calls[|calls| - 1];
      && (Answered(calls) <==> Answered(init) || IsAnswer(last))
      && (AnsweredTwice(calls) <==> AnsweredTwice(init) || (Answered(init) && IsAnswer(last)))
  {
    hide IsAnswer;
    var init := calls[..|calls| - 1];
    assert forall i :: 0 <= i < |init| ==> init[i] == calls[i];
    if Answered(init) {
      var i :| 0 <= i < |init| && IsAnswer(init[i]);
      assert IsAnswer(calls[i]);
    }
    if AnsweredTwice(init) {
      var i, j :| 0 <= i < j < |init| && IsAnswer(init[i]) && IsAnswer(init[j]);
      assert IsAnswer(calls[i]) && IsAnswer(calls[j]);
    }
    if AnsweredTwice(calls) {
      var i, j :| 0 <= i < j < |calls| && IsAnswer(calls[i]) && IsAnswer(calls[j]);
      assert IsAnswer(init[i]);
      if j < |init| { assert IsAnswer(init[j]); }
    }
  }

  lemma AskedInBodySnoc(c: ClientId, calls: seq<Call>)
    requires calls != []
    ensures var init, last := calls[..|calls| - 1], calls[|calls| - 1];
      AskedInBody(c, calls)
      <==> AskedInBody(c, init) || (last.Ask? && AfterCalls(c, init).curPos > AfterCalls(c, init).reqPos)
  {
    hide AfterCalls;
    var init := calls[..|calls| - 1];
    assert AskedInBodyAt(c, calls, |init|)
      <==> calls[|init|].Ask? && AfterCalls(c, init).curPos > AfterCalls(c, init).reqPos;
    forall i | 0 <= i < |init| ensures AskedInBodyAt(c, calls, i) <==> AskedInBodyAt(c, init, i) {
      assert calls[..i] == init[..i];
    }
    hide AskedInBodyAt;
  }

  /** After any calls: the bytes sent and queued are as many as the reply head and the positions say
      exactly when the connection was not answered twice and no request came into a body.  Otherwise
      they are more. */
  lemma {:induction false} CountedExactlyWhen(c: ClientId, calls: seq<Call>)
    ensures Surplus(AfterCalls(c, calls)) >= 0
    ensures Surplus(AfterCalls(c, calls)) == 0 <==> !AnsweredTwice(calls) && !AskedInBody(c, calls)
    ensures AfterCalls(c, calls).head != [] <==> Answered(calls)
    ensures AfterCalls(c, calls).reqPos <= AfterCalls(c, calls).curPos
    decreases |calls|
  {
    if calls == [] {
      EmptyUnsent();
    } else {
      var init, last := calls[..|calls| - 1], calls[|calls| - 1];
      CountedExactlyWhen(c, init);
      CallCounts(c, AfterCalls(c, init), last);
      hide Called, Surplus, AnsweredTwice, AskedInBody, Answered;
      AnsweredSnoc(calls);
      AskedInBodySnoc(c, calls);
    }
  }

  lemma TwiceStays(calls: seq<Call>, more: seq<Call>)
    requires AnsweredTwice(calls)
    ensures AnsweredTwice(calls + more)
  {
    var i, j :| 0 <= i < j < |calls| && IsAnswer(calls[i]) && IsAnswer(calls[j]);
    assert IsAnswer((calls + more)[i]) && IsAnswer((calls + more)[j]);
  }

  /** Once a second answer is given, the second open reported, found or not, or the second request
      refused, the stream is no longer a head and a piece of a file, and never will be again, whatever
      files there are and whatever is called. */
  lemma SecondAnswerBreaksStream(disk: Disk, c: ClientId, calls: seq<Call>, more: seq<Call>)
    requires AnsweredTwice(calls)
    ensures !StreamInv(disk, AfterCalls(c, calls + more))
  {
    hide AnsweredTwice, AskedInBody, StreamInv;
    TwiceStays(calls, more);
    CountedExactlyWhen(c, calls + more);
    if StreamInv(disk, AfterCalls(c, calls + more)) {
      StreamHasNoSurplus(disk, AfterCalls(c, calls + more));
    }
  }

  /** The same from any connection that is being served: whatever the second request asks for, and
      whatever was sent so far, its stream is broken as soon as the second open is reported. */
  lemma SecondOpenBreaksStream(disk: Disk, c: ClientId, cl: Client, path: Path, offset: nat, done: Call)
    requires StreamInv(disk, cl) && cl.started && done.OpenReported?
    ensures !StreamInv(disk, Called(c, Called(c, cl, Ask(path, offset)), done))
  {
    var asked := Called(c, cl, Ask(path, offset));
    StreamHasNoSurplus(disk, cl);
    assert cl.head != [] && cl.reqPos <= cl.curPos;
    CallCounts(c, cl, Ask(path, offset));
    CallCounts(c, asked, done);
    assert asked.head == cl.head;
    hide StreamInv, Surplus, Called;
    if StreamInv(disk, Called(c, asked, done)) {
      StreamHasNoSurplus(disk, Called(c, asked, done));
    }
  }

  /** One request made twice, before the first is answered. */
  function Twice(size: nat): seq<Call> {
    var done := OpenReported(Some("a"), size, []);
    [] + [Ask("a", 0)] + [Ask("a", 0)] + [done] + [done]
  }

  lemma OneMoreCall(c: ClientId, calls: seq<Call>, call: Call)
    ensures AfterCalls(c, calls + [call]) == Called(c, AfterCalls(c, calls), call)
  {
    assert (calls + [call])[..|calls|] == calls;
    hide Called;
  }

  lemma HeadIsQueued(c: ClientId, cl: Client, size: nat)
    requires cl.reqPos == 0
    ensures var r := Called(c, cl, OpenReported(Some("a"), size, []));
            r.deq == cl.deq + [SendItem(ReplyHead(0, size), 0)] && r.accepted == cl.accepted && r.reqPos == 0
  {
    hide ReplyHead;
    NothingGoes(cl.live, cl.deq + [SendItem(ReplyHead(0, size), 0)]);
    assert cl.accepted + [] == cl.accepted;
  }

  lemma NothingGoes(live: bool, deq: SendDeq)
    ensures Flush(live, deq, []) == Flushed(deq, [], [])
  {
  }

  /** It puts two reply heads in the queue, one behind the other. */
  lemma TwoHeadsForOneRequestTwice(c: ClientId, size: nat)
    ensures var cl := AfterCalls(c, Twice(size));
            cl.accepted == [] && Unsent(cl.deq) == ReplyHead(0, size) + ReplyHead(0, size)
    ensures AnsweredTwice(Twice(size))
  {
    var ask, done := Ask("a", 0), OpenReported(Some("a"), size, []);
    var asked, head := NewClient().(requested := true, path := "a"), SendItem(ReplyHead(0, size), 0);
    assert Called(c, NewClient(), ask) == asked && Called(c, asked, ask) == asked;
    hide ReplyHead, Called, AfterCalls;
    NoCalls(c);
    OneMoreCall(c, [], ask);
    OneMoreCall(c, [] + [ask], ask);
    OneMoreCall(c, [] + [ask] + [ask], done);
    OneMoreCall(c, [] + [ask] + [ask] + [done], done);
    HeadIsQueued(c, asked, size);
    HeadIsQueued(c, Called(c, asked, done), size);
    EmptyUnsent();
    UnsentSnoc([], head);
    UnsentSnoc([] + [head], head);
    assert IsAnswer(Twice(size)[2]) && IsAnswer(Twice(size)[3]);
  }

  lemma NoCalls(c: ClientId)
    ensures AfterCalls(c, []) == NewClient()
  {
  }
}
