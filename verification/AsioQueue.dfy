/** The file server's datagram queue: one asynchronous send at a time, to whoever was heard last. */
module AsioQueue {
  import opened Streams
  import UvQueue

  type Datagram = UvQueue.Datagram

  type Address = seq<byte>

  /** `sending_`, `udp_send_deq`, `sender_endpoint_` and `run`; `busy` is the send outstanding.
      History: `given` to the queue, `begun` sends and the destination of each. */
  datatype Asio = Asio(sending: bool, deq: seq<Datagram>, sender: Address, run: bool, busy: Option<Datagram>,
                       given: seq<Datagram>, begun: seq<Datagram>, dest: seq<Address>)

  const QUIET := Asio(false, [], [], true, None, [], [], [])

  /** `do_send`. */
  function SendNext(a: Asio): Asio {
    if a.sending || a.deq == [] then a
    else a.(sending := true, busy := Some(a.deq[0]), begun := a.begun + [a.deq[0]], dest := a.dest + [a.sender])
  }

  datatype Event =
    | Receives(from: Address)      // do_receive
    | Gives(d: Datagram)           // packet_send_imp
    | Completes                    // the handler of async_send_to
    | Stops                        // run := false

  function Next(a: Asio, e: Event): Asio {
    match e
    case Receives(from) => a.(sender := from)
    case Gives(d) => SendNext(a.(deq := a.deq + [d], given := a.given + [d]))
    case Completes =>
      if a.busy.None? || a.deq == [] then a
      else
        var b := a.(sending := false, deq := a.deq[1..], busy := None);
        if b.run && b.deq != [] then SendNext(b) else b
    case Stops => a.(run := false)
  }

  function Run(a: Asio, es: seq<Event>): Asio
    decreases |es|
  {
    if es == [] then a else Run(Next(a, es[0]), es[1..])
  }

  /** Queued and not begun. */
  function Behind(a: Asio): seq<Datagram> { if a.sending && a.deq != [] then a.deq[1..] else a.deq }

  ghost predicate Inv(a: Asio) {
    && (a.sending ==> a.deq != [])
    && a.busy == (if a.sending then Some(a.deq[0]) else None)
    && a.given == a.begun + Behind(a)
    && |a.dest| == |a.begun|
    && (a.sending ==> a.begun != [] && a.begun[|a.begun| - 1] == a.deq[0])
    && (a.run && !a.sending ==> a.deq == [])
  }

  lemma NextKeeps(a: Asio, e: Event)
    requires Inv(a)
    ensures Inv(Next(a, e))
  {
    match e
    case Gives(d) =>
      var b := a.(deq := a.deq + [d], given := a.given + [d]);
      assert b.given == b.begun + Behind(b);
      if !b.sending { assert b.begun + b.deq == (b.begun + [b.deq[0]]) + b.deq[1..]; }
    case Completes =>
      if a.busy.Some? && |a.deq| > 1 {
        var rest := a.deq[1..];
        assert a.begun + rest == (a.begun + [rest[0]]) + rest[1..];
      }
    case _ =>
  }

  lemma {:induction false} RunKeeps(a: Asio, es: seq<Event>)
    requires Inv(a)
    ensures Inv(Run(a, es))
    decreases |es|
  {
    hide Inv, Next;
    if es != [] {
      NextKeeps(a, es[0]);
      RunKeeps(Next(a, es[0]), es[1..]);
    }
  }

  /** For every run: a send is outstanding exactly while `sending_`, of the front datagram; sends
      begin in the order given and once each; and while the server runs nothing waits without one. */
  lemma InOrderOnce(es: seq<Event>)
    ensures var a := Run(QUIET, es);
      && (a.sending <==> a.busy.Some?)
      && (a.busy.Some? ==> a.deq != [] && a.busy == Some(a.deq[0]))
      && a.begun + Behind(a) == a.given
      && (a.run && !a.sending ==> a.begun == a.given)
  {
    RunKeeps(QUIET, es);
  }

  /** The datagrams that the events of a run give to the queue. */
  function GivenBy(es: seq<Event>): seq<Datagram> {
    if es == [] then [] else (if es[0].Gives? then [es[0].d] else []) + GivenBy(es[1..])
  }

  /** For every run: what was given to the queue is what the run gave, all of it and nothing else. */
  lemma {:induction false} NothingIgnored(a: Asio, es: seq<Event>)
    ensures Run(a, es).given == a.given + GivenBy(es)
    decreases |es|
  {
    if es == [] {
      assert a.given + [] == a.given;
    } else {
      NothingIgnored(Next(a, es[0]), es[1..]);
      var first := if es[0].Gives? then [es[0].d] else [];
      assert Next(a, es[0]).given == a.given + first;
      hide Next;
      assert a.given + first + GivenBy(es[1..]) == a.given + (first + GivenBy(es[1..]));
    }
  }

  function Completions(n: nat): seq<Event> { if n == 0 then [] else [Completes] + Completions(n - 1) }

  /** While the server runs, one completion each sends everything that waits. */
  lemma {:induction false} CompletionsDrain(a: Asio)
    requires Inv(a) && a.run
    ensures var b := Run(a, Completions(|a.deq|));
      !b.sending && b.deq == [] && b.begun == a.given
    decreases |a.deq|
  {
    if a.deq == [] {
      assert a.begun + [] == a.begun;
    } else {
      var es := Completions(|a.deq|);
      var b := Next(a, es[0]);
      assert es[1..] == Completions(|b.deq|);
      NextKeeps(a, Completes);
      CompletionsDrain(b);
    }
  }

  /** Every send so far went to the address of its datagram. */
  predicate WellDirected(a: Asio) {
    forall i :: 0 <= i < |a.begun| && i < |a.dest| ==> a.dest[i] == a.begun[i].address
  }

  /** The event starts a send for one peer while another was heard last. */
  predicate Misdirects(a: Asio, e: Event) {
    match e
    case Gives(d) => !a.sending && a.sender != (a.deq + [d])[0].address
    case Completes => a.busy.Some? && |a.deq| > 1 && a.run && a.sender != a.deq[1].address
    case _ => false
  }

  lemma NextDirects(a: Asio, e: Event)
    requires Inv(a)
    ensures WellDirected(Next(a, e)) <==> WellDirected(a) && !Misdirects(a, e)
  {
    var b := Next(a, e);
    if |b.begun| > |a.begun| {
      assert forall i :: 0 <= i < |a.begun| ==> b.dest[i] == a.dest[i] && b.begun[i] == a.begun[i];
      assert b.dest[|a.begun|] == a.sender;
    }
  }

  /** For every run: all datagrams went where they should exactly when no send was started for one
      peer while another was heard last. */
  lemma {:induction false} WellDirectedWhen(a: Asio, es: seq<Event>)
    requires Inv(a)
    ensures WellDirected(Run(a, es)) <==>
              WellDirected(a) && forall i :: 0 <= i < |es| ==> !Misdirects(Run(a, es[..i]), es[i])
    decreases |es|
  {
    if es != [] {
      var b := Next(a, es[0]);
      NextKeeps(a, es[0]);
      NextDirects(a, es[0]);
      WellDirectedWhen(b, es[1..]);
      hide Inv, Next, Misdirects, WellDirected;
      assert es[..0] == [] && Run(a, es[..0]) == a;
      forall i | 0 < i < |es| ensures Run(a, es[..i]) == Run(b, es[1..][..i - 1]) && es[i] == es[1..][i - 1] {
        assert es[..i][1..] == es[1..][..i - 1] && es[..i][0] == es[0];
      }
      if forall i :: 0 <= i < |es| ==> !Misdirects(Run(a, es[..i]), es[i]) {
        forall j | 0 <= j < |es[1..]| ensures !Misdirects(Run(b, es[1..][..j]), es[1..][j]) {
          assert !Misdirects(Run(a, es[..j + 1]), es[j + 1]);
        }
      }
    }
  }

  /** Two peers are enough: a datagram for one, sent after the other was heard, goes astray. */
  lemma TwoPeersGoAstray(a: Address, b: Address, payload: seq<byte>)
    requires a != b
    ensures !WellDirected(Run(QUIET, [Receives(a), Receives(b), Gives(UvQueue.Datagram(payload, a))]))
  {
    var es := [Receives(a), Receives(b), Gives(UvQueue.Datagram(payload, a))];
    var q := QUIET.(sender := b);
    assert es[1..] == [es[1], es[2]] && es[1..][1..] == [es[2]] && es[1..][1..][1..] == [];
    assert Run(QUIET, es) == Run(q, [es[2]]) == Run(Next(q, es[2]), []);
    assert Next(q, es[2]).dest == [b] && Next(q, es[2]).begun == [UvQueue.Datagram(payload, a)];
  }

  class AsioSender {
    var sending: bool
    var udpSendDeq: seq<Datagram>
    var senderEndpoint: Address
    var run: bool
    var outstanding: Option<Datagram>
    ghost var given: seq<Datagram>
    ghost var begun: seq<Datagram>
    ghost var dest: seq<Address>

    ghost function View(): Asio
      reads this
    {
      Asio(sending, udpSendDeq, senderEndpoint, run, outstanding, given, begun, dest)
    }

    constructor ()
      ensures View() == QUIET
    {
      sending, udpSendDeq, senderEndpoint, run, outstanding := false, [], [], true, None;
      given, begun, dest := [], [], [];
    }

    /** `async_send_to`. */
    method AsyncSendTo(d: Datagram, to: Address)
      requires outstanding.None?
      modifies `outstanding, `begun, `dest
      ensures outstanding == Some(d) && begun == old(begun) + [d] && dest == old(dest) + [to]
    {
      outstanding, begun, dest := Some(d), begun + [d], dest + [to];
    }

    method DoSend()
      requires sending <==> outstanding.Some?
      modifies this
      ensures View() == SendNext(old(View()))
    {
      if sending || |udpSendDeq| == 0 {
        return;
      }
      sending := true;
      AsyncSendTo(udpSendDeq[0], senderEndpoint);
    }

    /** `packet_send_imp`. */
    method PacketSendImp(d: Datagram)
      requires Inv(View())
      modifies this
      ensures View() == Next(old(View()), Gives(d)) && Inv(View())
    {
      NextKeeps(View(), Gives(d));
      given := given + [d];
      udpSendDeq := udpSendDeq + [d];
      DoSend();
    }

    /** The completion handler. */
    method SendCompleted()
      requires Inv(View()) && outstanding.Some?
      modifies this
      ensures View() == Next(old(View()), Completes) && Inv(View())
    {
      NextKeeps(View(), Completes);
      outstanding := None;
      sending := false;
      udpSendDeq := udpSendDeq[1..];
      if run && |udpSendDeq| > 0 {
        DoSend();
      }
    }
  }
}
