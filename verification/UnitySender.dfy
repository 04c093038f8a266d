/** The Unity client's send queue: partial sends with a resume position, and the two ways it goes
    wrong. */
module UnitySender {
  import opened Streams
  import opened Transport

  /** `s_rttp_send_queue`, `s_sent_size` and `s_rttp_waiting_send`. */
  datatype Sender = Sender(queue: seq<seq<byte>>, sentSize: nat, waiting: bool) {
    /** Only a packet in front that is not finished has been begun. */
    predicate Ok() {
      if queue == [] then sentSize == 0 else sentSize == 0 || sentSize < |queue[0]|
    }

    /** What is still to be accepted. */
    function Pending(): seq<byte>
      requires Ok()
    {
      if queue == [] then [] else queue[0][sentSize..] + Join(queue[1..])
    }
  }

  /** The outcome of one call of `SendUserData`: `code` is the answer that ended it, 1 when none
      did; `resent` is how much of the front packet will go out a second time. */
  datatype Sent = Sent(s: Sender, bytes: seq<byte>, plan: seq<int>, code: int, resent: nat)

  /** The front packet with `n` more bytes accepted. */
  function Took(s: Sender, n: nat): (r: Sender)
    requires s.Ok() && s.queue != [] && 0 < n <= |s.queue[0]| - s.sentSize
    ensures r.Ok() && r.waiting == s.waiting
  {
    if s.sentSize + n == |s.queue[0]| then Sender(s.queue[1..], 0, s.waiting) else s.(sentSize := s.sentSize + n)
  }

  /** `SendUserData`. */
  function SendUser(s: Sender, live: bool, plan: seq<int>): (r: Sent)
    requires s.Ok()
    ensures r.s.Ok()
    ensures r.code == 1 <==> s.waiting || r.s.queue == []
    ensures r.s.waiting <==> s.waiting || r.code == EWOULDBLOCK
    ensures r.resent > 0 ==> r.code <= 0 && r.code != EWOULDBLOCK
    decreases |plan|
  {
    if s.queue == [] || s.waiting then Sent(s, [], plan, 1, 0)
    else
      var n := SendResult(live, plan, |s.queue[0]| - s.sentSize);
      if n > 0 then
        var r := SendUser(Took(s, n), live, plan[1..]);
        r.(bytes := s.queue[0][s.sentSize..s.sentSize + n] + r.bytes)
      else
        var rest := if live then Used(plan) else plan;
        if n == EWOULDBLOCK then Sent(s.(waiting := true), [], rest, n, 0)
        else Sent(s.(sentSize := 0), [], rest, n, s.sentSize)
  }

  /** One answer of the library. */
  lemma SendUserRound(s: Sender, live: bool, plan: seq<int>)
    requires s.Ok() && s.queue != [] && !s.waiting
    ensures var n := SendResult(live, plan, |s.queue[0]| - s.sentSize);
      var r := SendUser(s, live, plan);
      if n <= 0 then
        && r.bytes == [] && r.code == n && r.resent == (if n == EWOULDBLOCK then 0 else s.sentSize)
        && r.plan == (if live then Used(plan) else plan)
        && r.s == Sender(s.queue, if n == EWOULDBLOCK then s.sentSize else 0, n == EWOULDBLOCK)
      else
        var next := SendUser(Took(s, n), live, plan[1..]);
        && plan != [] && live
        && s.queue[0][s.sentSize..][..n] == s.queue[0][s.sentSize..s.sentSize + n]
        && |Took(s, n).Pending()| < |s.Pending()|
        && r == next.(bytes := s.queue[0][s.sentSize..s.sentSize + n] + next.bytes)
  {
    var n := SendResult(live, plan, |s.queue[0]| - s.sentSize);
    if n > 0 {
      TookTakes(s, n);
    }
  }

  lemma SendUserDone(s: Sender, live: bool, plan: seq<int>)
    requires s.Ok() && (s.queue == [] || s.waiting)
    ensures SendUser(s, live, plan) == Sent(s, [], plan, 1, 0)
  {
  }

  lemma TookTakes(s: Sender, n: nat)
    requires s.Ok() && s.queue != [] && 0 < n <= |s.queue[0]| - s.sentSize
    ensures s.queue[0][s.sentSize..s.sentSize + n] + Took(s, n).Pending() == s.Pending()
  {
    CutFront(s.queue[0], s.sentSize, n, Join(s.queue[1..]));
    if s.sentSize + n == |s.queue[0]| {
      PendingFresh(s.queue[1..], s.waiting);
    }
    hide Join;
  }

  lemma CutFront(front: seq<byte>, i: nat, n: nat, behind: seq<byte>)
    requires i + n <= |front|
    ensures front[i..i + n] + (front[i + n..] + behind) == front[i..] + behind
    ensures i + n == |front| ==> front[i..i + n] + behind == front[i..] + behind
  {
    assert front[i..] == front[i..i + n] + front[i + n..];
  }

  lemma PendingFresh(queue: seq<seq<byte>>, waiting: bool)
    ensures Sender(queue, 0, waiting).Pending() == Join(queue)
  {
    if queue != [] {
      assert queue[0][0..] == queue[0];
    }
  }

  /** From `before` pending bytes, `bytes` went out and `after` are pending, `resent` too many. */
  ghost predicate Balance(before: seq<byte>, bytes: seq<byte>, after: seq<byte>, resent: nat) {
    && (resent == 0 ==> bytes + after == before)
    && |bytes| + |after| == |before| + resent
  }

  lemma BalanceMore(before: seq<byte>, chunk: seq<byte>, mid: seq<byte>,
                    bytes: seq<byte>, after: seq<byte>, resent: nat)
    requires chunk + mid == before && Balance(mid, bytes, after, resent)
    ensures Balance(before, chunk + bytes, after, resent)
  {
    Regroup(chunk, bytes, after);
  }

  /** A call moves bytes from the queue to the wire, and whatever a hard error makes it send again
      is exactly what is too much. */
  lemma {:induction false} SendUserConserves(s: Sender, live: bool, plan: seq<int>)
    requires s.Ok()
    ensures var r := SendUser(s, live, plan);
            Balance(s.Pending(), r.bytes, r.s.Pending(), r.resent)
    decreases |plan|
  {
    hide SendUser, Took, Join, Sender.Pending, Balance;
    if s.queue == [] || s.waiting {
      SendUserDone(s, live, plan);
      NothingMoves(s.Pending());
    } else {
      var n := SendResult(live, plan, |s.queue[0]| - s.sentSize);
      SendUserRound(s, live, plan);
      if n > 0 {
        TookTakes(s, n);
        var r := SendUser(Took(s, n), live, plan[1..]);
        SendUserConserves(Took(s, n), live, plan[1..]);
        BalanceMore(s.Pending(), s.queue[0][s.sentSize..s.sentSize + n], Took(s, n).Pending(),
                    r.bytes, r.s.Pending(), r.resent);
      } else {
        StoppedConserves(s);
      }
    }
  }

  lemma NothingMoves(pending: seq<byte>)
    ensures Balance(pending, [], pending, 0)
  {
  }

  lemma StoppedConserves(s: Sender)
    requires s.Ok() && s.queue != []
    ensures Balance(s.Pending(), [], s.(waiting := true).Pending(), 0)
    ensures Balance(s.Pending(), [], Sender(s.queue, 0, false).Pending(), s.sentSize)
  {
    hide Join;
  }

  datatype Event =
    | Submit(data: seq<byte>, live: bool, plan: seq<int>)   // SendData
    | Writable(live: bool, plan: seq<int>)                  // OnWrite
    | Disconnect

  /** What has happened in the current connection: submitted, accepted, sent twice; `total` counts
      the bytes accepted in all connections. */
  datatype History = History(s: Sender, submitted: seq<byte>, accepted: seq<byte>, resent: nat, total: nat)

  function Called(h: History, live: bool, plan: seq<int>): History
    requires h.s.Ok()
  {
    var r := SendUser(h.s, live, plan);
    History(r.s, h.submitted, h.accepted + r.bytes, h.resent + r.resent, h.total + |r.bytes|)
  }

  function Step(h: History, e: Event): (h': History)
    requires h.s.Ok()
    ensures h'.s.Ok()
  {
    match e
    case Submit(data, live, plan) =>
      var q := h.s.(queue := h.s.queue + [data]);
      Called(h.(s := q, submitted := h.submitted + data), live, plan)
    case Writable(live, plan) => Called(h, live, plan)
    case Disconnect => History(h.s.(queue := [], sentSize := 0), [], [], 0, h.total)
  }

  function Run(h: History, es: seq<Event>): (h': History)
    requires h.s.Ok()
    ensures h'.s.Ok()
    decreases |es|
  {
    if es == [] then h else Run(Step(h, es[0]), es[1..])
  }

  const FRESH := History(Sender([], 0, false), [], [], 0, 0)

  ghost predicate Conserved(h: History)
  {
    h.s.Ok() && Balance(h.submitted, h.accepted, h.s.Pending(), h.resent)
  }

  lemma CallKeeps(h: History, live: bool, plan: seq<int>)
    requires Conserved(h)
    ensures Conserved(Called(h, live, plan))
  {
    SendUserConserves(h.s, live, plan);
    var r := SendUser(h.s, live, plan);
    hide SendUser, Join, Sender.Pending;
    Regroup(h.accepted, r.bytes, r.s.Pending());
  }

  lemma EnqueueKeeps(h: History, data: seq<byte>)
    requires Conserved(h)
    ensures Conserved(h.(s := h.s.(queue := h.s.queue + [data]), submitted := h.submitted + data))
  {
    var q := h.s.(queue := h.s.queue + [data]);
    if h.s.queue == [] {
      assert q.Pending() == data;
    } else {
      assert q.queue[1..] == h.s.queue[1..] + [data];
      JoinSnoc(h.s.queue[1..], data);
    }
    assert q.Pending() == h.s.Pending() + data;
    Regroup(h.accepted, h.s.Pending(), data);
  }

  lemma StepKeeps(h: History, e: Event)
    requires Conserved(h)
    ensures Conserved(Step(h, e))
  {
    match e
    case Submit(data, live, plan) =>
      EnqueueKeeps(h, data);
      CallKeeps(h.(s := h.s.(queue := h.s.queue + [data]), submitted := h.submitted + data), live, plan);
    case Writable(live, plan) => CallKeeps(h, live, plan);
    case Disconnect =>
  }

  lemma {:induction false} RunKeeps(h: History, es: seq<Event>)
    requires Conserved(h)
    ensures Conserved(Run(h, es))
    decreases |es|
  {
    if es != [] {
      StepKeeps(h, es[0]);
      RunKeeps(Step(h, es[0]), es[1..]);
    }
  }

  // Which events break the stream, and which one stops it.

  /** Where a call stands when an answer that is not positive ends it, and that answer. */
  datatype Stop = Drained | Stopped(at: Sender, answer: int)

  function StopOf(s: Sender, live: bool, plan: seq<int>): (r: Stop)
    requires s.Ok()
    ensures r.Stopped? ==> r.at.Ok() && r.at.queue != []
    decreases |plan|
  {
    if s.queue == [] || s.waiting then Drained
    else
      var n := SendResult(live, plan, |s.queue[0]| - s.sentSize);
      if n > 0 then StopOf(Took(s, n), live, plan[1..]) else Stopped(s, n)
  }

  /** The call an event makes, if any: where it stops. */
  function StopAt(h: History, e: Event): Stop
    requires h.s.Ok()
  {
    match e
    case Submit(data, live, plan) => StopOf(h.s.(queue := h.s.queue + [data]), live, plan)
    case Writable(live, plan) => StopOf(h.s, live, plan)
    case Disconnect => Drained
  }

  /** The event meets a hard error while the front packet is partly sent. */
  predicate HitsMidPacket(h: History, e: Event)
    requires h.s.Ok()
  {
    var stop := StopAt(h, e);
    stop.Stopped? && stop.answer != EWOULDBLOCK && stop.at.sentSize > 0
  }

  /** The event is answered -1. */
  predicate Declined(h: History, e: Event)
    requires h.s.Ok()
  {
    var stop := StopAt(h, e);
    stop.Stopped? && stop.answer == EWOULDBLOCK
  }

  lemma {:induction false} StopSays(s: Sender, live: bool, plan: seq<int>)
    requires s.Ok()
    ensures var r, stop := SendUser(s, live, plan), StopOf(s, live, plan);
      && (r.resent > 0 <==> stop.Stopped? && stop.answer != EWOULDBLOCK && stop.at.sentSize > 0)
      && (r.s.waiting <==> s.waiting || (stop.Stopped? && stop.answer == EWOULDBLOCK))
    decreases |plan|
  {
    hide Took, Join, Sender.Pending;
    if s.queue != [] && !s.waiting && SendResult(live, plan, |s.queue[0]| - s.sentSize) > 0 {
      StopSays(Took(s, SendResult(live, plan, |s.queue[0]| - s.sentSize)), live, plan[1..]);
    }
  }

  lemma StepSays(h: History, e: Event)
    requires h.s.Ok()
    ensures Step(h, e).resent > 0 <==> !e.Disconnect? && (h.resent > 0 || HitsMidPacket(h, e))
    ensures Step(h, e).s.waiting <==> h.s.waiting || Declined(h, e)
  {
    hide SendUser, StopOf;
    match e
    case Submit(data, live, plan) => StopSays(h.s.(queue := h.s.queue + [data]), live, plan);
    case Writable(live, plan) => StopSays(h.s, live, plan);
    case Disconnect =>
  }

  lemma {:induction false} RunSnoc(h: History, es: seq<Event>, e: Event)
    requires h.s.Ok()
    ensures Run(h, es + [e]) == Step(Run(h, es), e)
    decreases |es|
  {
    hide Step;
    if es == [] {
      assert [] + [e] == [e] && [e][1..] == [];
    } else {
      RunSnoc(Step(h, es[0]), es[1..], e);
      assert (es + [e])[1..] == es[1..] + [e];
    }
  }

  /** Event `i` of a run hits a packet half sent, and there has been no disconnect since. */
  ghost predicate BrokenAt(es: seq<Event>, i: nat)
    requires i < |es|
  {
    HitsMidPacket(Run(FRESH, es[..i]), es[i]) && forall j :: i < j < |es| ==> !es[j].Disconnect?
  }

  ghost predicate DeclinedAt(es: seq<Event>, i: nat)
    requires i < |es|
  {
    Declined(Run(FRESH, es[..i]), es[i])
  }

  lemma BrokenLonger(es: seq<Event>, i: nat)
    requires es != [] && i < |es| - 1
    ensures BrokenAt(es, i) <==> BrokenAt(es[..|es| - 1], i) && !es[|es| - 1].Disconnect?
    ensures DeclinedAt(es, i) <==> DeclinedAt(es[..|es| - 1], i)
  {
    hide Run, HitsMidPacket, Declined;
    assert es[..i] == es[..|es| - 1][..i];
    assert forall j :: 0 <= j < |es| - 1 ==> es[j] == es[..|es| - 1][j];
  }

  lemma {:induction false} HistorySays(es: seq<Event>)
    ensures Run(FRESH, es).resent > 0 <==> exists i :: 0 <= i < |es| && BrokenAt(es, i)
    ensures Run(FRESH, es).s.waiting <==> exists i :: 0 <= i < |es| && DeclinedAt(es, i)
    decreases |es|
  {
    if es != [] {
      var init, last := es[..|es| - 1], |es| - 1;
      HistorySays(init);
      assert es == init + [es[last]] && es[..last] == init;
      RunSnoc(FRESH, init, es[last]);
      StepSays(Run(FRESH, init), es[last]);
      assert BrokenAt(es, last) <==> HitsMidPacket(Run(FRESH, init), es[last]);
      assert DeclinedAt(es, last) <==> Declined(Run(FRESH, init), es[last]);
      StopNeverDisconnects(Run(FRESH, init), es[last]);
      hide Step, Run, HitsMidPacket, Declined, BrokenAt, DeclinedAt;
      forall i | 0 <= i < last
        ensures BrokenAt(es, i) <==> BrokenAt(init, i) && !es[last].Disconnect?
        ensures DeclinedAt(es, i) <==> DeclinedAt(init, i)
      {
        BrokenLonger(es, i);
      }
    }
  }

  lemma StopNeverDisconnects(h: History, e: Event)
    requires h.s.Ok()
    ensures HitsMidPacket(h, e) ==> !e.Disconnect?
  {
  }

  /** For every run, since the last disconnect: what was accepted and what is pending spell what was
      submitted exactly when no event since has met a hard error with the front packet half sent. */
  lemma StreamIntactUnlessErrorMidPacket(es: seq<Event>)
    ensures var h := Run(FRESH, es);
            h.accepted + h.s.Pending() == h.submitted <==> !exists i :: 0 <= i < |es| && BrokenAt(es, i)
  {
    RunKeeps(FRESH, es);
    HistorySays(es);
    hide Run, BrokenAt, Sender.Pending;
  }

  /** For every run: the client waits exactly when some call before was answered -1. */
  lemma WaitsExactlyWhenDeclined(es: seq<Event>)
    ensures Run(FRESH, es).s.waiting <==> exists i :: 0 <= i < |es| && DeclinedAt(es, i)
  {
    HistorySays(es);
  }

  /** Once the library has declined with -1, nothing is ever sent again, whatever is submitted and
      whatever events come, disconnecting and connecting again included. */
  lemma {:induction false} WaitingIsForever(h: History, es: seq<Event>)
    requires h.s.Ok() && h.s.waiting
    ensures Run(h, es).s.waiting && Run(h, es).total == h.total
    decreases |es|
  {
    if es != [] {
      WaitingIsForever(Step(h, es[0]), es[1..]);
    }
  }

  const TWO_BYTES := Sender([[1, 2]], 0, false)

  lemma FirstCallBreaks()
    ensures var e := Submit([1, 2], true, [1, -5]);
            Step(FRESH, e) == History(TWO_BYTES, [1, 2], [1], 1, 1) && HitsMidPacket(FRESH, e)
  {
    assert [] + [[1, 2]] == [[1, 2]];
    assert SendUser(Took(TWO_BYTES, 1), true, [-5]) == Sent(TWO_BYTES, [], [], -5, 1);
    assert SendUser(TWO_BYTES, true, [1, -5]) == Sent(TWO_BYTES, [1], [], -5, 1);
    assert StopOf(Took(TWO_BYTES, 1), true, [-5]) == Stopped(Took(TWO_BYTES, 1), -5);
    hide SendUser;
    assert [] + [1, 2] == [1, 2] && [] + [1] == [1];
  }

  lemma SecondCallRepeats()
    ensures Step(History(TWO_BYTES, [1, 2], [1], 1, 1), Writable(true, [2]))
         == History(Sender([], 0, false), [1, 2], [1, 1, 2], 1, 3)
  {
    assert SendUser(TWO_BYTES, true, [2]) == Sent(Sender([], 0, false), [1, 2], [], 1, 0);
    hide SendUser;
    assert [1] + [1, 2] == [1, 1, 2];
  }

  /** A packet of two bytes: one is taken, then the library fails, and the next call sends the first
      byte again. */
  lemma FirstByteGoesOutTwice()
    ensures var es := [Submit([1, 2], true, [1, -5]), Writable(true, [2])];
            var h := Run(FRESH, es);
      h.submitted == [1, 2] && h.accepted == [1, 1, 2] && h.s.queue == [] && BrokenAt(es, 0)
  {
    var es := [Submit([1, 2], true, [1, -5]), Writable(true, [2])];
    FirstCallBreaks();
    SecondCallRepeats();
    hide Step, HitsMidPacket;
    assert es[..0] == [] && es[1..] == [es[1]] && es[1..][1..] == [];
    assert Run(Step(FRESH, es[0]), es[1..]) == Run(Step(Step(FRESH, es[0]), es[1]), []);
  }

  /** A transport that declines once is never tried again, whatever it would take afterwards. */
  lemma OneRefusalSilencesTheClient(data: seq<byte>, es: seq<Event>)
    requires data != []
    ensures var h := Run(FRESH, [Submit(data, true, [EWOULDBLOCK])] + es);
            h.total == 0 && h.s.waiting
  {
    var first := Submit(data, true, [EWOULDBLOCK]);
    assert ([first] + es)[1..] == es;
    assert Step(FRESH, first).s.waiting && Step(FRESH, first).total == 0;
    WaitingIsForever(Step(FRESH, first), es);
  }

  /** The client's own fields. */
  class UnitySendQueue {
    var queue: seq<seq<byte>>
    var sentSize: nat
    var waiting: bool

    function View(): Sender
      reads this
    {
      Sender(queue, sentSize, waiting)
    }

    constructor ()
      ensures View() == FRESH.s
    {
      queue, sentSize, waiting := [], 0, false;
    }

    /** `n` more bytes of the front packet were accepted. */
    method Accepted(n: nat)
      requires View().Ok() && !waiting && queue != [] && 0 < n <= |queue[0]| - sentSize
      modifies this
      ensures View() == Took(old(View()), n)
    {
      waiting := false;
      sentSize := sentSize + n;
      if sentSize == |queue[0]| {
        queue := queue[1..];
        sentSize := 0;
      }
    }

    /** `SendUserData`; `code` is what the error callback is told. */
    method SendUserData(socket: RtSocket) returns (code: int)
      requires View().Ok()
      modifies this, socket`sendPlan, socket`sends, socket`accepted
      ensures var r := SendUser(old(View()), socket.live, old(socket.sendPlan));
        && View() == r.s
        && socket.accepted == old(socket.accepted) + r.bytes
        && socket.sendPlan == r.plan
        && code == r.code
    {
      hide SendUser, Join, Took, Sender.Pending;
      ghost var whole := SendUser(View(), socket.live, socket.sendPlan);
      while |queue| > 0 && !waiting
        invariant View().Ok()
        invariant var r := SendUser(View(), socket.live, socket.sendPlan);
          && whole.s == r.s && whole.plan == r.plan && whole.code == r.code
          && socket.accepted + r.bytes == old(socket.accepted) + whole.bytes
        decreases |View().Pending()|, |queue|
      {
        ghost var was, taken := View(), socket.accepted;
        SendUserRound(was, socket.live, socket.sendPlan);
        var ret := socket.Send(queue[0][sentSize..]);
        if ret > 0 {
          Accepted(ret);
          Regroup(taken, was.queue[0][was.sentSize..was.sentSize + ret],
                  SendUser(View(), socket.live, socket.sendPlan).bytes);
        } else {
          waiting := ret == EWOULDBLOCK;
          if !waiting {
            sentSize := 0;
          }
          return ret;
        }
      }
      SendUserDone(View(), socket.live, socket.sendPlan);
      code := 1;
    }

    /** The action of `SendData`. */
    method SendData(socket: RtSocket, data: seq<byte>, ghost h: History) returns (code: int, ghost h': History)
      requires View().Ok() && h.s == View()
      modifies this, socket`sendPlan, socket`sends, socket`accepted
      ensures h' == Step(h, Submit(data, socket.live, old(socket.sendPlan))) && h'.s == View()
      ensures h'.submitted == h.submitted + data
      ensures socket.accepted == old(socket.accepted) + h'.accepted[|h.accepted|..]
    {
      h' := Step(h, Submit(data, socket.live, socket.sendPlan));
      queue := queue + [data];
      ghost var r := SendUser(View(), socket.live, socket.sendPlan);
      assert (h.accepted + r.bytes)[|h.accepted|..] == r.bytes;
      code := SendUserData(socket);
    }

    /** The part of `Disconnect` that concerns this queue; `s_rttp_waiting_send` is not among the
        fields it resets. */
    method DoDisconnect(socket: RtSocket, ghost h: History) returns (ghost h': History)
      requires View().Ok() && h.s == View()
      modifies this, socket`live
      ensures h' == Step(h, Disconnect) && h'.s == View() && !socket.live
    {
      socket.Close();
      queue := [];
      sentSize := 0;
      h' := Step(h, Disconnect);
    }
  }
}
