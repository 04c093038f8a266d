/** The libuv programs' datagram queue: one request object, used for one send at a time. */
module UvQueue {
  import opened Streams

  datatype Datagram = Datagram(payload: seq<byte>, address: seq<byte>)

  /** `sending` and `udp_send_deq`; `busy` is the datagram libuv holds the request for.  History:
      `given` to the queue, `offered` to `uv_udp_send`, `taken` by it, and whether a chained send was
      refused. */
  datatype Uv = Uv(sending: bool, deq: seq<Datagram>, busy: Option<Datagram>,
                   given: seq<Datagram>, offered: seq<Datagram>, taken: seq<Datagram>, chainRefused: bool)

  const IDLE := Uv(false, [], None, [], [], [], false)

  /** `uv_udp_send` of the front datagram; 0 means it was taken. */
  function Offer(u: Uv, ret: int): Uv
    requires u.deq != []
  {
    var v := u.(sending := true, offered := u.offered + [u.deq[0]]);
    if ret == 0 then v.(busy := Some(u.deq[0]), taken := u.taken + [u.deq[0]]) else v
  }

  /** `udp_send_callback`: the front datagram is done with; the next one is offered, and what
      `uv_udp_send` answers is ignored. */
  function Callback(u: Uv, chained: int): Uv
    requires u.deq != []
  {
    var v := u.(sending := false, deq := u.deq[1..], busy := None);
    if v.deq == [] then v
    else Offer(v, chained).(chainRefused := u.chainRefused || chained != 0)
  }

  /** `my_packet_send_imp`: a refusal of the first send is treated as its completion. */
  function Give(u: Uv, d: Datagram, ret: int, chained: int): Uv {
    var v := u.(deq := u.deq + [d], given := u.given + [d]);
    if u.sending then v
    else
      var w := Offer(v, ret);
      if ret != 0 then Callback(w, chained) else w
  }

  datatype Event =
    | Gives(d: Datagram, ret: int, chained: int)
    | Completes(status: int, chained: int)      // only for a send that is outstanding

  function Next(u: Uv, e: Event): Uv {
    match e
    case Gives(d, ret, chained) => Give(u, d, ret, chained)
    case Completes(_, chained) => if u.busy.None? || u.deq == [] then u else Callback(u, chained)
  }

  function Run(u: Uv, es: seq<Event>): Uv
    decreases |es|
  {
    if es == [] then u else Run(Next(u, es[0]), es[1..])
  }

  /** Waiting behind the one that was offered last. */
  function Waiting(u: Uv): seq<Datagram> { if u.deq == [] then [] else u.deq[1..] }

  ghost predicate Inv(u: Uv) {
    && (u.sending <==> u.deq != [])
    && u.given == u.offered + Waiting(u)
    && (u.deq != [] ==> u.offered != [] && u.offered[|u.offered| - 1] == u.deq[0])
    && (u.busy == if u.sending && !u.chainRefused then Some(u.deq[0]) else None)
    && (u.chainRefused ==> u.sending)
  }

  lemma OfferKeeps(u: Uv, ret: int)
    requires !u.sending && u.deq != [] && u.busy.None? && !u.chainRefused && u.given == u.offered + u.deq
    ensures var v := Offer(u, ret); v.given == v.offered + v.deq[1..]
    ensures ret == 0 ==> Inv(Offer(u, ret))
    ensures ret != 0 ==> Inv(Offer(u, ret).(chainRefused := true))
  {
    assert u.deq == [u.deq[0]] + u.deq[1..];
    assert u.offered + u.deq == (u.offered + [u.deq[0]]) + u.deq[1..];
  }

  lemma CallbackKeeps(u: Uv, chained: int)
    requires u.deq != [] && !u.chainRefused && u.given == u.offered + u.deq[1..]
    ensures Inv(Callback(u, chained))
  {
    if |u.deq| > 1 {
      OfferKeeps(u.(sending := false, deq := u.deq[1..], busy := None), chained);
    }
  }

  lemma GiveKeeps(u: Uv, d: Datagram, ret: int, chained: int)
    requires Inv(u)
    ensures Inv(Give(u, d, ret, chained))
  {
    var v := u.(deq := u.deq + [d], given := u.given + [d]);
    if u.sending {
      assert v.deq[1..] == u.deq[1..] + [d];
      assert v.given == v.offered + v.deq[1..];
    } else {
      assert v.deq == [d] && u.offered + [] == u.offered;
      OfferKeeps(v, ret);
      if ret != 0 {
        CallbackKeeps(Offer(v, ret), chained);
      }
    }
  }

  /** A refusal of a first send drops exactly that datagram: it is offered once, never taken, and
      the queue is idle again. */
  lemma RefusedFirstSendDropsIt(u: Uv, d: Datagram, ret: int, chained: int)
    requires Inv(u) && !u.sending && ret != 0
    ensures Give(u, d, ret, chained) == u.(given := u.given + [d], offered := u.offered + [d])
  {
  }

  lemma {:induction false} RunKeeps(u: Uv, es: seq<Event>)
    requires Inv(u)
    ensures Inv(Run(u, es))
    decreases |es|
  {
    if es != [] {
      match es[0] {
        case Gives(d, ret, chained) => GiveKeeps(u, d, ret, chained);
        case Completes(_, chained) => if u.busy.Some? { CallbackKeeps(u, chained); }
      }
      hide Inv, Next;
      RunKeeps(Next(u, es[0]), es[1..]);
    }
  }

  /** For every run: `sending` holds exactly while something is queued; the datagrams offered, then
      those waiting, are the datagrams given, each with its own address, in order and once; and the
      request is in use exactly while `sending`, for the front one, unless a chained send has been
      refused. */
  lemma InOrderOnce(es: seq<Event>)
    ensures var u := Run(IDLE, es);
      && (u.sending <==> u.deq != [])
      && u.offered + Waiting(u) == u.given
      && (u.busy.Some? <==> u.sending && !u.chainRefused)
      && (u.busy.Some? ==> u.offered != [] && Some(u.offered[|u.offered| - 1]) == u.busy)
  {
    RunKeeps(IDLE, es);
  }

  /** The datagrams that the events of a run give to the queue. */
  function GivenBy(es: seq<Event>): seq<Datagram> {
    if es == [] then [] else (if es[0].Gives? then [es[0].d] else []) + GivenBy(es[1..])
  }

  /** For every run: what was given to the queue is what the run gave, all of it and nothing else. */
  lemma {:induction false} NothingIgnored(u: Uv, es: seq<Event>)
    ensures Run(u, es).given == u.given + GivenBy(es)
    decreases |es|
  {
    if es == [] {
      assert u.given + [] == u.given;
    } else {
      NothingIgnored(Next(u, es[0]), es[1..]);
      var first := if es[0].Gives? then [es[0].d] else [];
      assert Next(u, es[0]).given == u.given + first;
      hide Next;
      assert u.given + first + GivenBy(es[1..]) == u.given + (first + GivenBy(es[1..]));
    }
  }

  function Completions(n: nat): seq<Event> { if n == 0 then [] else [Completes(0, 0)] + Completions(n - 1) }

  /** With one completion each, and no refusal, everything that waits is sent. */
  lemma {:induction false} CompletionsDrain(u: Uv)
    requires Inv(u) && !u.chainRefused
    ensures var v := Run(u, Completions(|u.deq|));
      !v.sending && v.deq == [] && v.busy.None? && v.offered == u.given && v.taken == u.taken + Waiting(u)
    decreases |u.deq|
  {
    if u.deq == [] {
      assert u.offered + [] == u.offered && u.taken + [] == u.taken;
    } else {
      var v := Next(u, Completes(0, 0));
      CallbackKeeps(u, 0);
      CallbackTakes(u);
      assert Completions(|u.deq|)[1..] == Completions(|v.deq|);
      CompletionsDrain(v);
      hide Inv, Next, Waiting, Callback;
      assert Run(u, Completions(|u.deq|)) == Run(v, Completions(|v.deq|));
    }
  }

  lemma CallbackTakes(u: Uv)
    requires u.deq != []
    ensures var v := Callback(u, 0);
      v.deq == u.deq[1..] && v.given == u.given && v.taken + Waiting(v) == u.taken + Waiting(u)
  {
    if |u.deq| > 1 {
      var rest := u.deq[1..];
      assert u.taken + [rest[0]] + rest[1..] == u.taken + rest;
    }
  }

  /** A queue that claims to be sending while nothing is outstanding is dead: it never offers
      another datagram. */
  lemma {:induction false} DeadForever(u: Uv, es: seq<Event>)
    requires u.sending && u.busy.None?
    ensures var v := Run(u, es); v.sending && v.busy.None? && v.offered == u.offered && v.taken == u.taken
    decreases |es|
  {
    if es != [] {
      DeadForever(Next(u, es[0]), es[1..]);
    }
  }

  /** The answer that kills it: `uv_udp_send` refuses a send that follows another. */
  predicate ChainRefusal(u: Uv, e: Event) {
    e.Completes? && u.busy.Some? && |u.deq| > 1 && e.chained != 0
  }

  lemma {:induction false} DeadWhen(u: Uv, es: seq<Event>)
    requires Inv(u)
    ensures Run(u, es).chainRefused <==>
              u.chainRefused || exists i :: 0 <= i < |es| && ChainRefusal(Run(u, es[..i]), es[i])
    decreases |es|
  {
    if es != [] {
      var v := Next(u, es[0]);
      RunKeeps(u, [es[0]]);
      assert [es[0]][1..] == [] && Run(u, [es[0]]) == Run(v, []) == v;
      DeadWhen(v, es[1..]);
      RunPrefixes(u, es);
      assert es[..0] == [];
      assert v.chainRefused <==> u.chainRefused || ChainRefusal(u, es[0]);
      hide Inv, Next, ChainRefusal;
      if i :| 0 <= i < |es| && ChainRefusal(Run(u, es[..i]), es[i]) {
        if i > 0 {
          assert es[1..][i - 1] == es[i];
        }
      }
      if j :| 0 <= j < |es[1..]| && ChainRefusal(Run(v, es[1..][..j]), es[1..][j]) {
        assert es[j + 1] == es[1..][j];
      }
      if ChainRefusal(u, es[0]) {
        assert Run(u, es[..0]) == u;
      }
    }
  }

  lemma RunPrefixes(u: Uv, es: seq<Event>)
    requires es != []
    ensures forall i :: 0 < i <= |es| ==> Run(u, es[..i]) == Run(Next(u, es[0]), es[1..][..i - 1])
  {
    forall i | 0 < i <= |es| ensures Run(u, es[..i]) == Run(Next(u, es[0]), es[1..][..i - 1]) {
      assert es[..i][1..] == es[1..][..i - 1] && es[..i][0] == es[0];
    }
  }

  /** For every run: the queue is dead exactly when some chained send was refused. */
  lemma DeadExactlyWhenChainRefused(es: seq<Event>)
    ensures var u := Run(IDLE, es);
            u.sending && u.busy.None? <==> exists i :: 0 <= i < |es| && ChainRefusal(Run(IDLE, es[..i]), es[i])
  {
    RunKeeps(IDLE, es);
    DeadWhen(IDLE, es);
  }

  /** The event offers a datagram that `uv_udp_send` refuses: as a first send, or behind another. */
  predicate Refuses(u: Uv, e: Event) {
    (e.Gives? && !u.sending && e.ret != 0) || ChainRefusal(u, e)
  }

  /** No more is taken than offered, and if as much, then the same. */
  ghost predicate TakenInv(u: Uv) {
    |u.taken| <= |u.offered| && (|u.taken| == |u.offered| ==> u.taken == u.offered)
  }

  lemma TakenStep(u: Uv, e: Event)
    requires Inv(u) && TakenInv(u)
    ensures TakenInv(Next(u, e))
    ensures Next(u, e).taken == Next(u, e).offered <==> u.taken == u.offered && !Refuses(u, e)
  {
  }

  lemma {:induction false} TakenWhen(u: Uv, es: seq<Event>)
    requires Inv(u) && TakenInv(u)
    ensures Run(u, es).taken == Run(u, es).offered <==>
              u.taken == u.offered && forall i :: 0 <= i < |es| ==> !Refuses(Run(u, es[..i]), es[i])
    decreases |es|
  {
    if es != [] {
      var v := Next(u, es[0]);
      TakenStep(u, es[0]);
      RunKeeps(u, [es[0]]);
      assert [es[0]][1..] == [] && Run(u, [es[0]]) == Run(v, []) == v;
      TakenWhen(v, es[1..]);
      RunPrefixes(u, es);
      hide Inv, Next, Refuses, TakenInv;
      assert es[..0] == [] && Run(u, es[..0]) == u;
      if forall i :: 0 <= i < |es| ==> !Refuses(Run(u, es[..i]), es[i]) {
        forall j | 0 <= j < |es[1..]| ensures !Refuses(Run(v, es[1..][..j]), es[1..][j]) {
          assert !Refuses(Run(u, es[..j + 1]), es[j + 1]);
        }
      }
      if forall j :: 0 <= j < |es[1..]| ==> !Refuses(Run(v, es[1..][..j]), es[1..][j]) {
        forall i | 0 < i < |es| ensures !Refuses(Run(u, es[..i]), es[i]) {
          assert !Refuses(Run(v, es[1..][..i - 1]), es[1..][i - 1]);
        }
      }
    }
  }

  /** For every run: everything offered has been taken exactly when no offer was refused, neither a
      first one nor a chained one. */
  lemma NothingLostExactlyUnlessRefused(es: seq<Event>)
    ensures Run(IDLE, es).taken == Run(IDLE, es).offered <==>
              forall i :: 0 <= i < |es| ==> !Refuses(Run(IDLE, es[..i]), es[i])
  {
    TakenWhen(IDLE, es);
  }

  /** Two datagrams, the second refused behind the first: the queue is dead for every run that
      follows. */
  lemma OneChainedRefusalKills(d: Datagram, e: Datagram, es: seq<Event>)
    ensures var first := [Gives(d, 0, 0), Gives(e, 0, 0), Completes(0, 1)];
            var u := Run(Run(IDLE, first), es);
      u.sending && u.busy.None? && u.offered == [d, e] && u.taken == [d]
  {
    var first := [Gives(d, 0, 0), Gives(e, 0, 0), Completes(0, 1)];
    var u1 := Next(IDLE, first[0]);
    var u2 := Next(u1, first[1]);
    var u3 := Next(u2, first[2]);
    assert u1.deq == [d] && u2.deq == [d, e];
    assert u3.sending && u3.busy.None? && u3.offered == [d, e] && u3.taken == [d];
    hide Next;
    assert first[1..] == [first[1], first[2]] && first[1..][1..] == [first[2]] && first[1..][1..][1..] == [];
    assert Run(IDLE, first) == Run(u1, first[1..]) == Run(u2, first[1..][1..]) == Run(u3, []);
    DeadForever(u3, es);
  }

  /** `uv_client_context`, as far as datagrams are concerned, and the request object. */
  class UvSender {
    var sending: bool
    var udpSendDeq: seq<Datagram>
    var sendReq: Option<Datagram>
    ghost var given: seq<Datagram>
    ghost var offered: seq<Datagram>
    ghost var taken: seq<Datagram>
    ghost var chainRefused: bool

    ghost function View(): Uv
      reads this
    {
      Uv(sending, udpSendDeq, sendReq, given, offered, taken, chainRefused)
    }

    constructor ()
      ensures View() == IDLE
    {
      sending, udpSendDeq, sendReq := false, [], None;
      given, offered, taken, chainRefused := [], [], [], false;
    }

    /** `uv_udp_send` with the one request there is, which must not be in use. */
    method UvUdpSend(d: Datagram, answer: int)
      requires sendReq.None?
      modifies `sendReq, `offered, `taken
      ensures offered == old(offered) + [d]
      ensures sendReq == if answer == 0 then Some(d) else None
      ensures taken == old(taken) + if answer == 0 then [d] else []
    {
      offered := offered + [d];
      if answer == 0 {
        sendReq := Some(d);
        taken := taken + [d];
      } else {
        assert taken + [] == taken;
      }
    }

    /** `udp_send_callback`; `chained` is what the next `uv_udp_send` will answer. */
    method UdpSendCallback(chained: int)
      requires udpSendDeq != []
      modifies this
      ensures View() == Callback(old(View()), chained)
    {
      sendReq := None;
      sending := false;
      udpSendDeq := udpSendDeq[1..];
      if |udpSendDeq| > 0 {
        sending := true;
        UvUdpSend(udpSendDeq[0], chained);
        chainRefused := chainRefused || chained != 0;
        assert taken + [] == taken;
      }
    }

    /** `my_packet_send_imp`. */
    method MyPacketSendImp(d: Datagram, answer: int, chained: int)
      requires Inv(View())
      modifies this
      ensures View() == Give(old(View()), d, answer, chained) && Inv(View())
    {
      GiveKeeps(View(), d, answer, chained);
      given := given + [d];
      udpSendDeq := udpSendDeq + [d];
      if !sending {
        sending := true;
        UvUdpSend(udpSendDeq[0], answer);
        assert taken + [] == taken;
        if answer != 0 {
          UdpSendCallback(chained);
        }
      }
    }
  }
}
