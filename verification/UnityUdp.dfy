/** The Unity client's datagrams: a worker thread that keeps one asynchronous send going, and the
    messages that tell it when one is done. */
module UnityUdp {
  import opened Streams

  type Datagram = seq<byte>

  /** What the worker thread is asked to do.  `Action` stands for every other command: what it makes
      the transport library send is known only when it runs. */
  datatype Command = UdpSend | Disconnect | Action

  /** `inOs` is the send the operating system has not completed; `started` all sends, in order;
      `given` what the library wanted sent; `kept` the same without what a disconnect discarded. */
  datatype Udp = Udp(sending: bool, queue: seq<Datagram>, inOs: Option<Datagram>, messages: seq<Command>,
                     started: seq<Datagram>, given: seq<Datagram>, kept: seq<Datagram>)

  const IDLE := Udp(false, [], None, [], [], [], [])

  /** `BeginSend`. */
  function Begin(u: Udp, d: Datagram): Udp {
    u.(inOs := Some(d), started := u.started + [d], sending := true)
  }

  /** `SendDataImp`. */
  function Give(u: Udp, d: Datagram): Udp {
    var v := u.(given := u.given + [d], kept := u.kept + [d]);
    if u.sending then v.(queue := u.queue + [d]) else Begin(v, d)
  }

  function GiveAll(u: Udp, ds: seq<Datagram>): Udp
    decreases |ds|
  {
    if ds == [] then u else GiveAll(Give(u, ds[0]), ds[1..])
  }

  /** `SendPacketInUDPQueue`. */
  function SendQueued(u: Udp): Udp {
    if u.queue == [] then u else Begin(u.(queue := u.queue[1..]), u.queue[0])
  }

  /** The queue is cleared by a disconnect. */
  function Clear(u: Udp): Udp {
    u.(queue := [], kept := if |u.queue| <= |u.kept| then u.kept[..|u.kept| - |u.queue|] else [])
  }

  /** The worker takes a message; `ds` is what the library sends meanwhile. */
  function Work(u: Udp, ds: seq<Datagram>): Udp
    requires u.messages != []
  {
    var v := u.(messages := u.messages[1..]);
    match u.messages[0]
    case UdpSend => SendQueued(v.(sending := false))
    case Disconnect => Clear(GiveAll(v, ds))
    case Action => GiveAll(v, ds)
  }

  datatype Event =
    | Works(ds: seq<Datagram>)       // one message
    | Ticks(ds: seq<Datagram>)       // rt_tick between messages
    | Completes                      // the operating system, then OnUdpSend
    | Posts(c: Command)              // any thread

  function Next(u: Udp, e: Event): Udp {
    match e
    case Works(ds) => if u.messages == [] then u else Work(u, ds)
    case Ticks(ds) => GiveAll(u, ds)
    case Completes => if u.inOs.None? then u else u.(inOs := None, messages := u.messages + [UdpSend])
    case Posts(c) => if c.UdpSend? then u else u.(messages := u.messages + [c])
  }

  function Run(u: Udp, es: seq<Event>): Udp
    decreases |es|
  {
    if es == [] then u else Run(Next(u, es[0]), es[1..])
  }

  /** `a` is `b` with some elements left out. */
  predicate Subsequence(a: seq<Datagram>, b: seq<Datagram>)
    decreases |b|
  {
    a == [] || (b != [] && (Subsequence(a, b[..|b| - 1])
                         || (a[|a| - 1] == b[|b| - 1] && Subsequence(a[..|a| - 1], b[..|b| - 1]))))
  }

  lemma SubsequenceSnoc(a: seq<Datagram>, b: seq<Datagram>, d: Datagram)
    requires Subsequence(a, b)
    ensures Subsequence(a + [d], b + [d])
  {
    assert (a + [d])[..|a|] == a && (b + [d])[..|b|] == b;
  }

  lemma {:induction false} SubsequencePrefix(a: seq<Datagram>, b: seq<Datagram>, n: nat)
    requires Subsequence(a, b) && n <= |a|
    ensures Subsequence(a[..n], b)
    decreases |b|
  {
    if 0 < n < |a| {
      var init := b[..|b| - 1];
      if Subsequence(a, init) {
        SubsequencePrefix(a, init, n);
      } else {
        assert a[..|a| - 1][..n] == a[..n];
        SubsequencePrefix(a[..|a| - 1], init, n);
      }
    } else {
      assert a[..|a|] == a;
    }
  }

  /** Completions the worker has not yet heard of: in the operating system, or on their way. */
  function Outstanding(u: Udp): nat {
    (if u.inOs.Some? then 1 else 0) + multiset(u.messages)[UdpSend]
  }

  ghost predicate Inv(u: Udp) {
    && Outstanding(u) == (if u.sending then 1 else 0)
    && (!u.sending ==> u.queue == [])
    && u.kept == u.started + u.queue
    && Subsequence(u.kept, u.given)
  }

  lemma GiveKeeps(u: Udp, d: Datagram)
    requires Inv(u)
    ensures Inv(Give(u, d)) && Give(u, d).messages == u.messages
  {
    SubsequenceSnoc(u.kept, u.given, d);
    hide Subsequence;
  }

  lemma {:induction false} GiveAllKeeps(u: Udp, ds: seq<Datagram>)
    requires Inv(u)
    ensures Inv(GiveAll(u, ds))
    decreases |ds|
  {
    if ds != [] {
      GiveKeeps(u, ds[0]);
      GiveAllKeeps(Give(u, ds[0]), ds[1..]);
    }
  }

  lemma ClearKeeps(u: Udp)
    requires Inv(u)
    ensures Inv(Clear(u)) && Clear(u).started == u.started && Clear(u).kept == u.started
  {
    SubsequencePrefix(u.kept, u.given, |u.started|);
    assert u.kept[..|u.kept| - |u.queue|] == u.started;
    hide Subsequence;
  }

  lemma WorkKeeps(u: Udp, ds: seq<Datagram>)
    requires Inv(u) && u.messages != []
    ensures Inv(Work(u, ds))
  {
    hide Subsequence;
    assert u.messages == [u.messages[0]] + u.messages[1..];
    var v := u.(messages := u.messages[1..]);
    if !u.messages[0].UdpSend? {
      assert Inv(v);
      GiveAllKeeps(v, ds);
      ClearKeeps(GiveAll(v, ds));
    } else if u.queue != [] {
      assert u.queue == [u.queue[0]] + u.queue[1..];
    }
  }

  lemma NextKeeps(u: Udp, e: Event)
    requires Inv(u)
    ensures Inv(Next(u, e))
  {
    hide Subsequence, Work, GiveAll;
    match e
    case Works(ds) => if u.messages != [] { WorkKeeps(u, ds); }
    case Ticks(ds) => GiveAllKeeps(u, ds);
    case _ =>
  }

  lemma {:induction false} RunKeeps(u: Udp, es: seq<Event>)
    requires Inv(u)
    ensures Inv(Run(u, es))
    decreases |es|
  {
    hide Inv, Next;
    if es != [] {
      NextKeeps(u, es[0]);
      RunKeeps(Next(u, es[0]), es[1..]);
    }
  }

  /** For every interleaving of the threads: the flag says whether a completion is outstanding, of
      which there is never more than one; nothing waits while it is down; and the sends started,
      then those waiting, are the datagrams given, in order and once each, but for those a
      disconnect found waiting. */
  lemma HandOff(es: seq<Event>)
    ensures var u := Run(IDLE, es);
      && (u.sending <==> Outstanding(u) == 1)
      && (!u.sending <==> Outstanding(u) == 0)
      && (!u.sending ==> u.queue == [])
      && u.started + u.queue == u.kept
      && Subsequence(u.kept, u.given)
  {
    RunKeeps(IDLE, es);
  }

  /** The datagrams the library sends while an event is handled. */
  function GivenNow(u: Udp, e: Event): seq<Datagram> {
    match e
    case Works(ds) => if u.messages != [] && !u.messages[0].UdpSend? then ds else []
    case Ticks(ds) => ds
    case _ => []
  }

  lemma {:induction false} GiveAllGives(u: Udp, ds: seq<Datagram>)
    ensures GiveAll(u, ds).given == u.given + ds
    decreases |ds|
  {
    if ds == [] {
      assert u.given + [] == u.given;
    } else {
      GiveAllGives(Give(u, ds[0]), ds[1..]);
      assert u.given + [ds[0]] + ds[1..] == u.given + ds;
    }
  }

  /** None of them is ignored. */
  lemma NothingIgnored(u: Udp, e: Event)
    ensures Next(u, e).given == u.given + GivenNow(u, e)
  {
    match e
    case Works(ds) => if u.messages != [] { GiveAllGives(u.(messages := u.messages[1..]), ds); }
    case Ticks(ds) => GiveAllGives(u, ds);
    case _ =>
  }

  lemma {:induction false} GiveAllStarts(u: Udp, ds: seq<Datagram>)
    ensures GiveAll(u, ds).started == u.started + if u.sending || ds == [] then [] else [ds[0]]
    ensures GiveAll(u, ds).messages == u.messages
    decreases |ds|
  {
    if ds != [] {
      GiveAllStarts(Give(u, ds[0]), ds[1..]);
      assert u.started + [] == u.started && u.started + [ds[0]] + [] == u.started + [ds[0]];
    } else {
      assert u.started + [] == u.started;
    }
  }

  /** After the worker has disconnected nothing waits: of what the library sent meanwhile only a
      datagram that found no send outstanding was started, and the rest is dropped. */
  lemma DisconnectDrops(u: Udp, ds: seq<Datagram>)
    requires Inv(u) && u.messages != [] && u.messages[0].Disconnect?
    ensures var v := Next(u, Works(ds));
      && v.queue == [] && v.kept == v.started && v.messages == u.messages[1..]
      && v.started == u.started + (if u.sending || ds == [] then [] else [ds[0]])
      && v.sending == (u.sending || ds != [])
  {
    var v := u.(messages := u.messages[1..]);
    assert u.messages == [u.messages[0]] + u.messages[1..];
    GiveAllStarts(v, ds);
    NextKeeps(u, Works(ds));
    hide Subsequence;
    GiveAllKeeps(v, ds);
    GiveAllSends(v, ds);
    ClearKeeps(GiveAll(v, ds));
  }

  lemma {:induction false} GiveAllSends(u: Udp, ds: seq<Datagram>)
    ensures GiveAll(u, ds).sending == (u.sending || ds != [])
    decreases |ds|
  {
    if ds != [] { GiveAllSends(Give(u, ds[0]), ds[1..]); }
  }

  /** A completion, and the worker handling its message. */
  function Rounds(n: nat): seq<Event> { if n == 0 then [] else [Completes, Works([])] + Rounds(n - 1) }

  /** One completion for each, and everything that waits is sent. */
  lemma {:induction false} CompletionsDrain(u: Udp)
    requires Inv(u) && u.messages == [] && u.sending
    ensures var v := Run(u, Rounds(|u.queue| + 1));
      !v.sending && v.queue == [] && v.inOs.None? && v.started == u.kept && v.kept == u.kept
    decreases |u.queue|
  {
    var es := Rounds(|u.queue| + 1);
    var mid := Next(u, Completes);
    var v := Next(mid, Works([]));
    assert u.inOs.Some? && mid.messages == [UdpSend];
    NextKeeps(u, Completes);
    NextKeeps(mid, Works([]));
    assert es[0] == Completes && es[1..][0] == Works([]) && es[1..][1..] == Rounds(|u.queue|);
    assert v.messages == [] && v.kept == u.kept;
    assert Run(u, es) == Run(mid, es[1..]) == Run(v, Rounds(|u.queue|));
    if u.queue != [] {
      assert |v.queue| + 1 == |u.queue| && v.sending;
      CompletionsDrain(v);
    } else {
      assert v.started + [] == v.started;
    }
  }

  predicate NoDisconnect(es: seq<Event>) { forall i :: 0 <= i < |es| ==> es[i] != Posts(Disconnect) }

  lemma {:induction false} GiveAllKept(u: Udp, ds: seq<Datagram>)
    requires u.kept == u.given
    ensures GiveAll(u, ds).kept == GiveAll(u, ds).given && GiveAll(u, ds).messages == u.messages
    decreases |ds|
  {
    if ds != [] {
      GiveAllKept(Give(u, ds[0]), ds[1..]);
    }
  }

  lemma {:induction false} NothingDropped(u: Udp, es: seq<Event>)
    requires NoDisconnect(es) && u.kept == u.given && Disconnect !in u.messages
    ensures Run(u, es).kept == Run(u, es).given
    decreases |es|
  {
    if es != [] {
      var v := Next(u, es[0]);
      assert v.kept == v.given && Disconnect !in v.messages by {
        match es[0]
        case Works(ds) => if u.messages != [] { GiveAllKept(u.(messages := u.messages[1..]), ds); }
        case Ticks(ds) => GiveAllKept(u, ds);
        case _ => assert es[0] != Posts(Disconnect);
      }
      NothingDropped(v, es[1..]);
    }
  }

  /** Without a disconnect every datagram is started, or waits, in the order given. */
  lemma NothingDroppedWithoutDisconnect(es: seq<Event>)
    requires NoDisconnect(es)
    ensures var u := Run(IDLE, es); u.started + u.queue == u.given
  {
    HandOff(es);
    NothingDropped(IDLE, es);
  }

  /** The static fields of the client that concern datagrams, the message queue, and the one send
      the operating system may be busy with. */
  class UnityUdpClient {
    var udpSending: bool
    var udpSendQueue: seq<Datagram>
    var threadMsgQueue: seq<Command>
    var inOs: Option<Datagram>
    ghost var started: seq<Datagram>
    ghost var given: seq<Datagram>
    ghost var kept: seq<Datagram>

    ghost function View(): Udp
      reads this
    {
      Udp(udpSending, udpSendQueue, inOs, threadMsgQueue, started, given, kept)
    }

    constructor ()
      ensures View() == IDLE
    {
      udpSending, udpSendQueue, threadMsgQueue, inOs := false, [], [], None;
      started, given, kept := [], [], [];
    }

    /** `BeginSend`: its caller never has another send outstanding. */
    method BeginSend(data: Datagram)
      requires Outstanding(View()) == 0
      modifies `inOs, `started
      ensures inOs == Some(data) && started == old(started) + [data]
    {
      inOs, started := Some(data), started + [data];
    }

    /** `SendDataImp`. */
    method SendDataImp(data: Datagram)
      requires Inv(View())
      modifies this
      ensures View() == Give(old(View()), data) && Inv(View())
    {
      GiveKeeps(View(), data);
      hide Inv, Subsequence;
      assert !udpSending ==> Outstanding(View()) == 0 by { InvSays(View()); }
      given, kept := given + [data], kept + [data];
      if udpSending {
        udpSendQueue := udpSendQueue + [data];
      } else {
        BeginSend(data);
        udpSending := true;
      }
    }

    /** `SendPacketInUDPQueue`. */
    method SendPacketInUDPQueue()
      requires Outstanding(View()) == 0
      modifies this
      ensures View() == SendQueued(old(View()))
    {
      if |udpSendQueue| > 0 {
        var data := udpSendQueue[0];
        udpSendQueue := udpSendQueue[1..];
        BeginSend(data);
        udpSending := true;
      }
    }

    /** `OnUdpSend`, when the operating system has completed a send. */
    method OnUdpSend()
      requires inOs.Some?
      modifies this
      ensures View() == Next(old(View()), Completes)
    {
      inOs := None;
      PostThreadMessage(UdpSend);
    }

    method PostThreadMessage(cmd: Command)
      modifies `threadMsgQueue
      ensures threadMsgQueue == old(threadMsgQueue) + [cmd]
    {
      threadMsgQueue := threadMsgQueue + [cmd];
    }

    /** The library sends datagrams while an action runs, or on a tick. */
    method Library(ds: seq<Datagram>)
      requires Inv(View())
      modifies this
      ensures View() == GiveAll(old(View()), ds) && Inv(View())
    {
      hide Inv;
      for i := 0 to |ds|
        invariant Inv(View()) && GiveAll(View(), ds[i..]) == GiveAll(old(View()), ds)
      {
        SendDataImp(ds[i]);
      }
    }

    /** One round of `ThreadProc` that finds a message. */
    method TakeMessage(ds: seq<Datagram>)
      requires Inv(View()) && threadMsgQueue != []
      modifies this
      ensures View() == Work(old(View()), ds) && Inv(View())
    {
      hide Subsequence;
      WorkKeeps(View(), ds);
      var item := threadMsgQueue[0];
      assert threadMsgQueue == [item] + threadMsgQueue[1..];
      threadMsgQueue := threadMsgQueue[1..];
      match item {
        case UdpSend =>
          udpSending := false;
          SendPacketInUDPQueue();
        case Disconnect =>
          Library(ds);
          kept := Clear(View()).kept;
          udpSendQueue := [];
        case Action =>
          Library(ds);
      }
    }
  }

  lemma InvSays(u: Udp)
    requires Inv(u)
    ensures Outstanding(u) == if u.sending then 1 else 0
  {
  }
}
