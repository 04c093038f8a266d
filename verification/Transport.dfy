/** The stream transport as its documentation describes it, and the partial-send queue every
    program puts in front of it.

    The library behind `rt_send` and `rt_recv` is closed.  What it may answer is a script of
    arbitrary integers held by the socket, one per call: theorems about every script are theorems
    about everything the library may do. */
module Transport {
  import opened Streams

  const EWOULDBLOCK := -1
  const EINVALID_SOCKET := -105

  /** What `rt_send` answers when offered `want` bytes: any accepted count up to `want`, or a
      value that is not positive.  A script that has run out answers "would block". */
  function SendResult(live: bool, plan: seq<int>, want: nat): (n: int)
    ensures n <= want
    ensures !live ==> n < 0
    ensures live && plan != [] && plan[0] > 0 && want > 0 ==> n > 0 && (n == plan[0] || n == want)
  {
    if !live then EINVALID_SOCKET
    else if plan == [] then EWOULDBLOCK
    else Min(plan[0], want)
  }

  /** What `rt_recv` answers with room for `want` bytes when `avail` bytes have arrived: any chunk
      of them, 0 for a closed connection, or a negative code. */
  function RecvResult(plan: seq<int>, want: nat, avail: nat): (n: int)
    ensures n <= want && n <= avail
    ensures plan != [] && plan[0] > 0 && want > 0 && avail > 0 ==> n > 0 && (n == plan[0] || n == want || n == avail)
  {
    if plan == [] then EWOULDBLOCK
    else if plan[0] <= 0 then plan[0]
    else if avail == 0 then EWOULDBLOCK
    else Min(plan[0], Min(want, avail))
  }

  function Used(plan: seq<int>): seq<int> { if plan == [] then [] else plan[1..] }

  /** One `socket_send_item`: a buffer and how much of it has been accepted. */
  datatype SendItem = SendItem(buffer: seq<byte>, pos: nat) {
    /** What is still to be sent. */
    function Tail(): seq<byte> { if pos <= |buffer| then buffer[pos..] else [] }
  }

  /** A queued item still has something to send. */
  predicate DeqOk(deq: seq<SendItem>) {
    forall i :: 0 <= i < |deq| ==> deq[i].pos < |deq[i].buffer|
  }

  type SendDeq = deq: seq<SendItem> | DeqOk(deq)

  /** The unsent tails of a queue, in order. */
  function Unsent(deq: seq<SendItem>): seq<byte>
    requires DeqOk(deq)
  {
    if deq == [] then [] else deq[0].Tail() + Unsent(deq[1..])
  }

  lemma {:induction false} UnsentSnoc(deq: seq<SendItem>, item: SendItem)
    requires DeqOk(deq) && item.pos < |item.buffer|
    ensures DeqOk(deq + [item])
    ensures Unsent(deq + [item]) == Unsent(deq) + item.Tail()
  {
    if deq == [] {
      assert deq + [item] == [item];
      assert [item][1..] == [];
    } else {
      UnsentSnoc(deq[1..], item);
      assert (deq + [item])[1..] == deq[1..] + [item];
    }
  }

  /** The queue with its first `n` unsent bytes gone: what any way of sending `n` bytes leaves. */
  function Advance(deq: seq<SendItem>, n: nat): (rest: seq<SendItem>)
    requires DeqOk(deq) && n <= |Unsent(deq)|
    ensures DeqOk(rest) && |rest| <= |deq|
    ensures Unsent(rest) == Unsent(deq)[n..]
    decreases |deq|
  {
    if deq == [] || n == 0 then deq
    else
      var tail := |deq[0].Tail()|;
      if n >= tail then Advance(deq[1..], n - tail)
      else
        var rest := [deq[0].(pos := deq[0].pos + n)] + deq[1..];
        assert rest[1..] == deq[1..];
        rest
  }

  lemma AdvanceStep(deq: seq<SendItem>, n: nat)
    requires DeqOk(deq) && deq != [] && 0 < n <= |Unsent(deq)|
    ensures var tail := |deq[0].Tail()|;
      if n >= tail then n - tail <= |Unsent(deq[1..])| && Advance(deq, n) == Advance(deq[1..], n - tail)
      else Advance(deq, n) == [deq[0].(pos := deq[0].pos + n)] + deq[1..]
  {
  }

  lemma {:induction false} AdvanceTwice(deq: seq<SendItem>, m: nat, n: nat)
    requires DeqOk(deq) && m + n <= |Unsent(deq)|
    ensures Advance(Advance(deq, m), n) == Advance(deq, m + n)
    decreases |deq|
  {
    hide Unsent, Advance;
    if deq == [] || m == 0 || n == 0 {
      AdvanceNothing(deq);
      AdvanceNothing(Advance(deq, m));
      NothingUnsent();
    } else if m >= |deq[0].Tail()| {
      AdvancePast(deq, m, n);
      AdvanceTwice(deq[1..], m - |deq[0].Tail()|, n);
    } else {
      AdvanceWithin(deq, m, n);
    }
  }

  lemma AdvanceNothing(deq: seq<SendItem>)
    requires DeqOk(deq)
    ensures Advance(deq, 0) == deq
  {
  }

  lemma NothingUnsent()
    ensures Unsent([]) == []
  {
  }

  /** Both ways go past the first item. */
  lemma AdvancePast(deq: seq<SendItem>, m: nat, n: nat)
    requires DeqOk(deq) && deq != [] && |deq[0].Tail()| <= m && m > 0 && m + n <= |Unsent(deq)|
    ensures var tail := |deq[0].Tail()|;
      && m - tail + n <= |Unsent(deq[1..])|
      && Advance(deq, m) == Advance(deq[1..], m - tail)
      && Advance(deq, m + n) == Advance(deq[1..], m - tail + n)
  {
    hide Unsent, Advance;
    AdvanceStep(deq, m);
    AdvanceStep(deq, m + n);
  }

  /** The first way stops within the first item. */
  lemma AdvanceWithin(deq: seq<SendItem>, m: nat, n: nat)
    requires DeqOk(deq) && deq != [] && 0 < m < |deq[0].Tail()| && 0 < n && m + n <= |Unsent(deq)|
    ensures Advance(Advance(deq, m), n) == Advance(deq, m + n)
  {
    hide Unsent;
    AdvanceStep(deq, m);
    AdvanceStep(deq, m + n);
    UnsentHead(deq);
    var mid := Advance(deq, m);
    hide Advance;
    assert mid[0] == deq[0].(pos := deq[0].pos + m) && mid[1..] == deq[1..];
    UnsentHead(mid);
    AdvanceStep(mid, n);
  }

  lemma UnsentHead(deq: seq<SendItem>)
    requires DeqOk(deq) && deq != []
    ensures Unsent(deq) == deq[0].Tail() + Unsent(deq[1..])
  {
  }

  datatype Flushed = Flushed(deq: seq<SendItem>, sent: seq<byte>, plan: seq<int>)

  /** The head of the queue after `n` of its bytes were accepted. */
  function HeadSent(deq: seq<SendItem>, n: nat): (rest: seq<SendItem>)
    requires DeqOk(deq) && deq != [] && 0 < n <= |deq[0].Tail()|
    ensures DeqOk(rest)
  {
    var item := deq[0].(pos := deq[0].pos + n);
    if item.pos == |item.buffer| then deq[1..] else [item] + deq[1..]
  }

  lemma HeadSentIsAdvance(deq: seq<SendItem>, n: nat)
    requires DeqOk(deq) && deq != [] && 0 < n <= |deq[0].Tail()|
    ensures n <= |Unsent(deq)| && HeadSent(deq, n) == Advance(deq, n)
    ensures deq[0].Tail()[..n] == Unsent(deq)[..n]
  {
  }

  /** `rtsocket_send_data`: offer the head item until the queue is empty or the library declines. */
  function Flush(live: bool, deq: seq<SendItem>, plan: seq<int>): (f: Flushed)
    requires DeqOk(deq)
    ensures DeqOk(f.deq) && |f.deq| <= |deq|
    ensures !live ==> f.sent == [] && f.deq == deq
    decreases |plan|
  {
    if deq == [] then Flushed([], [], plan)
    else
      var n := SendResult(live, plan, |deq[0].Tail()|);
      if n <= 0 then Flushed(deq, [], if live then Used(plan) else plan)
      else
        var f := Flush(live, HeadSent(deq, n), plan[1..]);
        f.(sent := deq[0].Tail()[..n] + f.sent)
  }

  lemma FlushTakes(live: bool, deq: seq<SendItem>, plan: seq<int>)
    requires DeqOk(deq) && deq != [] && SendResult(live, plan, |deq[0].Tail()|) > 0
    ensures var n := SendResult(live, plan, |deq[0].Tail()|);
            var f := Flush(live, HeadSent(deq, n), plan[1..]);
            && plan != []
            && Flush(live, deq, plan) == f.(sent := deq[0].Tail()[..n] + f.sent)
  {
  }

  lemma FlushStops(live: bool, deq: seq<SendItem>, plan: seq<int>)
    requires DeqOk(deq) && (deq == [] || SendResult(live, plan, |deq[0].Tail()|) <= 0)
    ensures var f := Flush(live, deq, plan);
            f.deq == deq && f.sent == [] && f.plan == if live && deq != [] then Used(plan) else plan
    ensures Advance(deq, 0) == deq
  {
  }

  lemma FlushSplit(all: seq<byte>, n: nat, sent: seq<byte>, next: seq<byte>, left: seq<byte>)
    requires n <= |all| && next == all[n..] && sent + left == next
    ensures all[..n] + sent + left == all && |all[..n] + sent| == n + |sent|
  {
    assert all == all[..n] + all[n..];
  }

  /** Sending only ever moves bytes from the front of the queue to the wire, and the queue that
      is left depends on how many were taken, not on how the library took them. */
  lemma {:induction false} FlushConserves(live: bool, deq: seq<SendItem>, plan: seq<int>)
    requires DeqOk(deq)
    ensures var f := Flush(live, deq, plan);
            && f.sent + Unsent(f.deq) == Unsent(deq)
            && |f.sent| <= |Unsent(deq)|
            && f.deq == Advance(deq, |f.sent|)
    decreases |plan|
  {
    hide *;
    if deq == [] || SendResult(live, plan, |deq[0].Tail()|) <= 0 {
      FlushStops(live, deq, plan);
    } else {
      FlushTakes(live, deq, plan);
      var n := SendResult(live, plan, |deq[0].Tail()|);
      var next := HeadSent(deq, n);
      var f := Flush(live, next, plan[1..]);
      HeadSentIsAdvance(deq, n);
      FlushConserves(live, next, plan[1..]);
      AdvanceTwice(deq, n, |f.sent|);
      FlushSplit(Unsent(deq), n, f.sent, Unsent(next), Unsent(f.deq));
    }
  }

  /** Sending goes on as long as the library takes something: it stops with an empty queue, or because
      the script has run out, or with an entry that is not positive, the only such entry used. */
  lemma {:induction false} FlushEnds(deq: seq<SendItem>, plan: seq<int>)
    requires DeqOk(deq)
    ensures var f := Flush(true, deq, plan);
            var used := |plan| - |f.plan|;
      && 0 <= used && f.plan == plan[used..]
      && (forall i :: 0 <= i < used - 1 ==> plan[i] > 0)
      && (f.deq == [] && used > 0 ==> plan[used - 1] > 0)
      && (f.deq != [] ==> f.plan == [] || (used > 0 && plan[used - 1] <= 0))
    decreases |plan|
  {
    hide Flush, Unsent, HeadSent, Advance;
    if deq == [] || SendResult(true, plan, |deq[0].Tail()|) <= 0 {
      FlushStops(true, deq, plan);
    } else {
      FlushTakes(true, deq, plan);
      FlushEnds(HeadSent(deq, SendResult(true, plan, |deq[0].Tail()|)), plan[1..]);
    }
  }

  /** A library that takes all it is offered empties the queue with one call an item. */
  lemma {:induction false} FlushWilling(deq: seq<SendItem>, plan: seq<int>)
    requires DeqOk(deq) && |deq| <= |plan|
    requires forall i :: 0 <= i < |deq| ==> plan[i] >= |deq[i].Tail()|
    ensures Flush(true, deq, plan) == Flushed([], Unsent(deq), plan[|deq|..])
    decreases |plan|
  {
    hide Flush, Unsent, Advance;
    if deq == [] {
      FlushStops(true, deq, plan);
      NothingUnsent();
    } else {
      var tail := |deq[0].Tail()|;
      assert SendResult(true, plan, tail) == tail && HeadSent(deq, tail) == deq[1..];
      hide HeadSent, SendResult;
      FlushTakes(true, deq, plan);
      UnsentHead(deq);
      FlushWilling(deq[1..], plan[1..]);
      assert plan[1..][|deq[1..]|..] == plan[|deq|..] && deq[0].Tail()[..tail] == deq[0].Tail();
    }
  }

  /** The library has handed over, or taken, something each time it was asked in between. */
  ghost predicate Gave(before: seq<int>, after: seq<int>) {
    before <= after && forall i :: |before| <= i < |after| ==> after[i] > 0
  }

  /** And then, asked once more, it answered `ret`: nothing. */
  ghost predicate Declined(before: seq<int>, after: seq<int>, ret: int) {
    |before| < |after| && Gave(before, after[..|after| - 1]) && ret == after[|after| - 1] <= 0
  }

  /** The bytes that these answers stand for. */
  function Bytes(answers: seq<int>): nat {
    if answers == [] then 0
    else Bytes(answers[..|answers| - 1]) + if answers[|answers| - 1] > 0 then answers[|answers| - 1] else 0
  }

  lemma BytesSnoc(answers: seq<int>, n: int)
    ensures Bytes(answers + [n]) == Bytes(answers) + if n > 0 then n else 0
  {
    assert (answers + [n])[..|answers|] == answers;
  }

  lemma GaveMore(before: seq<int>, after: seq<int>, n: int)
    requires Gave(before, after)
    ensures if n > 0 then Gave(before, after + [n]) else Declined(before, after + [n], n)
  {
    assert (after + [n])[..|after|] == after;
  }

  lemma NothingAsked(answers: seq<int>)
    ensures Gave(answers, answers)
  {
  }

  lemma GaveTwice(a: seq<int>, b: seq<int>, c: seq<int>)
    requires Gave(a, b) && Gave(b, c)
    ensures Gave(a, c)
  {
    assert forall i :: |a| <= i < |b| ==> c[i] == b[i];
  }

  lemma GaveThenDeclined(a: seq<int>, b: seq<int>, c: seq<int>, ret: int)
    requires Gave(a, b) && Declined(b, c, ret)
    ensures Declined(a, c, ret)
  {
    GaveTwice(a, b, c[..|c| - 1]);
  }

  /** A transport socket: the two scripts, the bytes on the way in, and what has passed. */
  class RtSocket {
    var live: bool
    var sendPlan: seq<int>
    var accepted: seq<byte>       // everything rt_send has taken
    var recvPlan: seq<int>
    var arriving: seq<byte>       // arrived, not yet read
    var received: seq<byte>       // everything rt_recv has handed over
    var log: seq<seq<byte>>       // the same, chunk by chunk
    ghost var sends: seq<int>     // every answer of rt_send
    ghost var recvs: seq<int>     // every answer of rt_recv

    constructor (sendPlan: seq<int>, recvPlan: seq<int>, arriving: seq<byte>)
      ensures live && this.sendPlan == sendPlan && this.recvPlan == recvPlan && this.arriving == arriving
      ensures accepted == [] && received == [] && log == [] && sends == [] && recvs == []
    {
      live, accepted, received, log := true, [], [], [];
      sends, recvs := [], [];
      this.sendPlan, this.recvPlan, this.arriving := sendPlan, recvPlan, arriving;
    }

    /** `rt_send`. */
    method Send(data: seq<byte>) returns (n: int)
      modifies `sendPlan, `accepted, `sends
      ensures n == SendResult(live, old(sendPlan), |data|)
      ensures accepted == old(accepted) + data[..if n > 0 then n else 0]
      ensures sendPlan == if live then Used(old(sendPlan)) else old(sendPlan)
      ensures sends == old(sends) + [n]
    {
      n := SendResult(live, sendPlan, |data|);
      sends := sends + [n];
      if n > 0 {
        accepted := accepted + data[..n];
      }
      if live {
        sendPlan := Used(sendPlan);
      }
    }

    /** `rt_recv` into `buffer[off..off + want]`. */
    method Recv(buffer: array<byte>, off: nat, want: nat) returns (n: int)
      requires off + want <= buffer.Length
      modifies buffer, `recvPlan, `arriving, `received, `log, `recvs
      ensures n == RecvResult(old(recvPlan), want, |old(arriving)|)
      ensures recvPlan == Used(old(recvPlan)) && recvs == old(recvs) + [n]
      ensures n <= 0 ==>
        && buffer[..] == old(buffer[..])
        && arriving == old(arriving)
        && received == old(received)
        && log == old(log)
      ensures n > 0 ==>
        && arriving == old(arriving)[n..]
        && received == old(received) + old(arriving)[..n]
        && log == old(log) + [old(arriving)[..n]]
        && buffer[..] == old(buffer[..])[..off] + old(arriving)[..n] + old(buffer[..])[off + n..]
    {
      n := RecvResult(recvPlan, want, |arriving|);
      recvPlan, recvs := Used(recvPlan), recvs + [n];
      if n > 0 {
        forall i | 0 <= i < n {
          buffer[off + i] := arriving[i];
        }
        received := received + arriving[..n];
        log := log + [arriving[..n]];
        arriving := arriving[n..];
      }
    }

    /** `rt_close`. */
    method Close()
      modifies `live
      ensures !live
    {
      live := false;
    }
  }

  datatype IoState = Idle | Connecting | Connected | WaitingClose | Closed

  /** `socket_io_info`: the receive buffer with its fill position, and the send queue. */
  class SocketIo {
    var recvBuffer: array?<byte>
    var recvPos: nat
    var recvLen: nat
    var state: IoState
    var sendDeq: seq<SendItem>

    constructor ()
      ensures recvBuffer == null && recvPos == 0 && recvLen == 0 && state == Idle && sendDeq == []
    {
      recvBuffer, recvPos, recvLen, state, sendDeq := null, 0, 0, Idle, [];
    }

    /** The part of the receive buffer that is filled. */
    function Filled(): seq<byte>
      reads this, recvBuffer
    {
      if recvBuffer != null && recvPos <= recvBuffer.Length then recvBuffer[..recvPos] else []
    }
  }

  /** `rt_recv` at the fill position, which moves by what came: `chunk`. */
  method RecvMore(socket: RtSocket, io: SocketIo, want: nat) returns (ret: int, ghost chunk: seq<byte>)
    requires io.recvBuffer != null && io.recvPos + want <= io.recvBuffer.Length
    modifies socket`recvPlan, socket`recvs, socket`arriving, socket`received, socket`log, io`recvPos, io.recvBuffer
    ensures ret == RecvResult(old(socket.recvPlan), want, |old(socket.arriving)|)
    ensures socket.recvPlan == Used(old(socket.recvPlan)) && socket.recvs == old(socket.recvs) + [ret]
    ensures |chunk| == if ret > 0 then ret else 0
    ensures io.recvPos == old(io.recvPos) + |chunk|
    ensures io.Filled() == old(io.Filled()) + chunk
    ensures old(socket.arriving) == chunk + socket.arriving
    ensures socket.received == old(socket.received) + chunk
    ensures socket.log == old(socket.log) + if ret > 0 then [chunk] else []
  {
    ret := socket.Recv(io.recvBuffer, io.recvPos, want);
    chunk := old(socket.arriving)[..if ret > 0 then ret else 0];
    if ret > 0 {
      io.recvPos := io.recvPos + ret;
    }
  }

  /** `rtsocket_send_data`.  The loop ends whatever the library does: each round takes at least
      one byte off the queue. */
  method RtsocketSendData(socket: RtSocket, io: SocketIo) returns (send: nat)
    requires DeqOk(io.sendDeq)
    modifies socket`sendPlan, socket`sends, socket`accepted, io`sendDeq
    ensures var f := Flush(socket.live, old(io.sendDeq), old(socket.sendPlan));
            && io.sendDeq == f.deq
            && socket.sendPlan == f.plan
            && socket.accepted == old(socket.accepted) + f.sent
            && send == |f.sent|
    ensures if io.sendDeq == [] then Gave(old(socket.sends), socket.sends)
            else exists n :: Declined(old(socket.sends), socket.sends, n)
    ensures Bytes(socket.sends) == Bytes(old(socket.sends)) + send
  {
    send := 0;
    ghost var whole := Flush(socket.live, io.sendDeq, socket.sendPlan);
    while |io.sendDeq| > 0
      invariant DeqOk(io.sendDeq)
      invariant |socket.accepted| == |old(socket.accepted)| + send
      invariant Gave(old(socket.sends), socket.sends) && Bytes(socket.sends) == Bytes(old(socket.sends)) + send
      invariant var f := Flush(socket.live, io.sendDeq, socket.sendPlan);
        && whole.deq == f.deq && whole.plan == f.plan && |whole.sent| == send + |f.sent|
        && socket.accepted + f.sent == old(socket.accepted) + whole.sent
      decreases |Unsent(io.sendDeq)|
    {
      var item := io.sendDeq[0];
      ghost var taken, sends := socket.accepted, socket.sends;
      var bytes := socket.Send(item.Tail());
      GaveMore(old(socket.sends), sends, bytes);
      BytesSnoc(sends, bytes);
      if bytes <= 0 {
        return;
      }
      send := send + bytes;
      HeadSentIsAdvance(io.sendDeq, bytes);
      io.sendDeq := HeadSent(io.sendDeq, bytes);
      Regroup(taken, item.Tail()[..bytes], Flush(socket.live, io.sendDeq, socket.sendPlan).sent);
    }
  }

  /** The same, for a caller that only cares where the bytes went: it stops with an empty queue, or
      because the library has declined. */
  method SendQueued(socket: RtSocket, io: SocketIo)
    requires DeqOk(io.sendDeq)
    modifies socket`sendPlan, socket`sends, socket`accepted, io`sendDeq
    ensures DeqOk(io.sendDeq)
    ensures old(socket.accepted) <= socket.accepted
    ensures socket.accepted + Unsent(io.sendDeq) == old(socket.accepted) + Unsent(old(io.sendDeq))
    ensures if io.sendDeq == [] then Gave(old(socket.sends), socket.sends)
            else exists n :: Declined(old(socket.sends), socket.sends, n)
    ensures Bytes(socket.sends) - Bytes(old(socket.sends)) == |socket.accepted| - |old(socket.accepted)|
  {
    hide *;
    var _ := RtsocketSendData(socket, io);
    FlushConserves(socket.live, old(io.sendDeq), old(socket.sendPlan));
    Regroup(old(socket.accepted), Flush(socket.live, old(io.sendDeq), old(socket.sendPlan)).sent, Unsent(io.sendDeq));
  }

  lemma Regroup(a: seq<byte>, b: seq<byte>, c: seq<byte>)
    ensures a + (b + c) == (a + b) + c
  {
  }
}
