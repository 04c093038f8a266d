/** The select-loop programs' datagrams: sent at once if the socket takes them, queued if not, and
    the queue is worked off once per round.  The run is told in numbers: datagram `n` is the one
    given as the `n`-th. */
module SelectQueue {
  import UvQueue

  type Datagram = UvQueue.Datagram

  /** `queue` is `udp_send_deq`; `wire` is history, and `given` counts all datagrams. */
  datatype Out = Out(queue: seq<nat>, wire: seq<nat>, given: nat)

  const NOTHING := Out([], [], 0)

  /** `packet_send_imp`: `ok` is whether `sendto` takes the datagram. */
  function Sent(u: Out, ok: bool): Out {
    if ok then Out(u.queue, u.wire + [u.given], u.given + 1) else Out(u.queue + [u.given], u.wire, u.given + 1)
  }

  /** `do_udp_send`, with the answers of `sendto`. */
  function Drained(u: Out, oks: seq<bool>): Out
    decreases |oks|
  {
    if u.queue == [] || oks == [] || !oks[0] then u
    else Drained(Out(u.queue[1..], u.wire + [u.queue[0]], u.given), oks[1..])
  }

  datatype Event = Sends(ok: bool) | Drains(oks: seq<bool>)

  function Next(u: Out, e: Event): Out {
    match e
    case Sends(ok) => Sent(u, ok)
    case Drains(oks) => Drained(u, oks)
  }

  function Run(u: Out, es: seq<Event>): Out
    decreases |es|
  {
    if es == [] then u else Run(Next(u, es[0]), es[1..])
  }

  ghost predicate Ascending(s: seq<nat>) { forall i, j :: 0 <= i < j < |s| ==> s[i] < s[j] }

  /** How often a datagram is on the wire or in the queue. */
  function Times(u: Out, n: nat): nat { multiset(u.wire)[n] + multiset(u.queue)[n] }

  /** Every datagram so far is there, and only once. */
  ghost predicate OnceEach(u: Out) {
    && (forall n: nat :: Times(u, n) == if n < u.given then 1 else 0)
    && Ascending(u.queue)
  }

  ghost predicate InOrder(u: Out) { Ascending(u.wire + u.queue) }

  /** The datagram overtakes the ones queued before it. */
  predicate Overtakes(u: Out, e: Event) { e.Sends? && e.ok && u.queue != [] }

  lemma NumbersAreBelow(u: Out)
    requires OnceEach(u)
    ensures forall i :: 0 <= i < |u.wire + u.queue| ==> (u.wire + u.queue)[i] < u.given
    ensures forall i :: 0 <= i < |u.queue| ==> u.queue[i] < u.given
  {
    forall i | 0 <= i < |u.wire + u.queue| ensures (u.wire + u.queue)[i] < u.given {
      var n := (u.wire + u.queue)[i];
      assert n in u.wire || n in u.queue;
      assert Times(u, n) > 0;
    }
    forall i | 0 <= i < |u.queue| ensures u.queue[i] < u.given {
      assert u.queue[i] == (u.wire + u.queue)[|u.wire| + i];
    }
  }

  lemma SentKeeps(u: Out, ok: bool)
    requires OnceEach(u)
    ensures OnceEach(Sent(u, ok))
  {
    NumbersAreBelow(u);
    AscendingSnoc(u.queue, u.given);
    SentTimes(u, ok);
    hide Times, Ascending;
  }

  lemma SentOrder(u: Out, ok: bool)
    requires OnceEach(u)
    ensures InOrder(Sent(u, ok)) <==> InOrder(u) && !Overtakes(u, Sends(ok))
  {
    NumbersAreBelow(u);
    hide OnceEach;
    var v := Sent(u, ok);
    var all := v.wire + v.queue;
    if ok && u.queue != [] {
      assert all[|u.wire|] == u.given && all[|u.wire| + 1] == u.queue[0];
    } else {
      assert all == (u.wire + u.queue) + [u.given];
      AscendingSnoc(u.wire + u.queue, u.given);
    }
  }

  lemma SentTimes(u: Out, ok: bool)
    ensures forall n: nat :: Times(Sent(u, ok), n) == Times(u, n) + if n == u.given then 1 else 0
  {
  }

  lemma AscendingSnoc(s: seq<nat>, n: nat)
    requires forall i :: 0 <= i < |s| ==> s[i] < n
    ensures Ascending(s + [n]) <==> Ascending(s)
  {
    if Ascending(s + [n]) {
      forall i, j | 0 <= i < j < |s| ensures s[i] < s[j] {
        assert (s + [n])[i] < (s + [n])[j];
      }
    }
  }

  lemma {:induction false} DrainedKeeps(u: Out, oks: seq<bool>)
    requires OnceEach(u)
    ensures OnceEach(Drained(u, oks))
    ensures InOrder(Drained(u, oks)) <==> InOrder(u)
    decreases |oks|
  {
    if u.queue != [] && oks != [] && oks[0] {
      var v := Out(u.queue[1..], u.wire + [u.queue[0]], u.given);
      assert v.wire + v.queue == u.wire + u.queue;
      FrontMoves(u, v);
      DrainedKeeps(v, oks[1..]);
    }
  }

  /** A round of sending ends with an empty queue, or because `sendto` refused or was never asked
      again; until then each datagram at the front goes out, in order. */
  lemma {:induction false} DrainedEnds(u: Out, oks: seq<bool>)
    ensures var v := Drained(u, oks);
            var n := |u.queue| - |v.queue|;
      && 0 <= n <= |oks| && v.given == u.given
      && v.wire == u.wire + u.queue[..n] && v.queue == u.queue[n..]
      && (forall i :: 0 <= i < n ==> oks[i])
      && (v.queue != [] ==> n == |oks| || !oks[n])
    decreases |oks|
  {
    if u.queue != [] && oks != [] && oks[0] {
      var v := Out(u.queue[1..], u.wire + [u.queue[0]], u.given);
      DrainedEnds(v, oks[1..]);
      var n := |u.queue| - |Drained(u, oks).queue|;
      assert u.wire + u.queue[..n] == v.wire + v.queue[..n - 1];
    } else {
      assert u.wire + u.queue[..0] == u.wire;
    }
  }

  lemma FrontMoves(u: Out, v: Out)
    requires OnceEach(u) && u.queue != [] && v == Out(u.queue[1..], u.wire + [u.queue[0]], u.given)
    ensures OnceEach(v)
  {
    assert u.queue == [u.queue[0]] + u.queue[1..];
    forall n: nat ensures Times(v, n) == Times(u, n) {
    }
  }

  lemma {:induction false} RunKeeps(u: Out, es: seq<Event>)
    requires OnceEach(u)
    ensures OnceEach(Run(u, es))
    decreases |es|
  {
    hide OnceEach, InOrder, Sent, Drained;
    if es != [] {
      NextKeeps(u, es[0]);
      RunKeeps(Next(u, es[0]), es[1..]);
    }
  }

  lemma NextKeeps(u: Out, e: Event)
    requires OnceEach(u)
    ensures OnceEach(Next(u, e)) && (InOrder(Next(u, e)) <==> InOrder(u) && !Overtakes(u, e))
  {
    hide OnceEach, InOrder, Sent, Drained;
    match e
    case Sends(ok) =>
      SentKeeps(u, ok);
      SentOrder(u, ok);
    case Drains(oks) => DrainedKeeps(u, oks);
  }

  /** For every run, every datagram is on the wire or in the queue, once. */
  lemma NothingLostOrRepeated(es: seq<Event>)
    ensures var u := Run(NOTHING, es);
            forall n: nat :: multiset(u.wire)[n] + multiset(u.queue)[n] == if n < u.given then 1 else 0
  {
    RunKeeps(NOTHING, es);
    var u := Run(NOTHING, es);
    assert forall n: nat :: Times(u, n) == multiset(u.wire)[n] + multiset(u.queue)[n];
  }

  lemma {:induction false} InOrderWhen(u: Out, es: seq<Event>)
    requires OnceEach(u)
    ensures InOrder(Run(u, es)) <==>
              InOrder(u) && forall i :: 0 <= i < |es| ==> !Overtakes(Run(u, es[..i]), es[i])
    decreases |es|
  {
    if es != [] {
      hide OnceEach, InOrder, Overtakes, Sent, Drained, Next;
      var v := Next(u, es[0]);
      NextKeeps(u, es[0]);
      InOrderWhen(v, es[1..]);
      assert es[..0] == [] && Run(u, es[..0]) == u;
      forall i | 0 < i < |es| ensures Run(u, es[..i]) == Run(v, es[1..][..i - 1]) && es[i] == es[1..][i - 1] {
        assert es[..i][1..] == es[1..][..i - 1] && es[..i][0] == es[0];
      }
      if forall i :: 0 <= i < |es| ==> !Overtakes(Run(u, es[..i]), es[i]) {
        forall j | 0 <= j < |es[1..]| ensures !Overtakes(Run(v, es[1..][..j]), es[1..][j]) {
          assert !Overtakes(Run(u, es[..j + 1]), es[j + 1]);
        }
      }
    }
  }

  /** For every run: as many datagrams have been given as the run gave. */
  lemma {:induction false} NothingIgnored(u: Out, es: seq<Event>)
    ensures Run(u, es).given == u.given + SendsIn(es)
    decreases |es|
  {
    if es != [] {
      if es[0].Drains? { DrainedEnds(u, es[0].oks); }
      hide Drained;
      NothingIgnored(Next(u, es[0]), es[1..]);
    }
  }

  function SendsIn(es: seq<Event>): nat {
    if es == [] then 0 else (if es[0].Sends? then 1 else 0) + SendsIn(es[1..])
  }

  /** Datagrams reach the wire in the order given exactly when none is sent directly while others
      are queued; the code sends directly without looking. */
  lemma InOrderExactlyWithoutOvertaking(es: seq<Event>)
    ensures Ascending(Run(NOTHING, es).wire + Run(NOTHING, es).queue) <==>
              forall i :: 0 <= i < |es| ==> !Overtakes(Run(NOTHING, es[..i]), es[i])
  {
    InOrderWhen(NOTHING, es);
  }

  /** Two datagrams are enough: the first is queued, the second sent directly. */
  lemma SecondOvertakesFirst()
    ensures var u := Run(NOTHING, [Sends(false), Sends(true), Drains([true])]); u.wire == [1, 0] && u.queue == []
  {
    var es := [Sends(false), Sends(true), Drains([true])];
    assert es[1..] == [es[1], es[2]] && es[1..][1..] == [es[2]] && es[1..][1..][1..] == [];
    var u1 := Out([0], [], 1);
    var u2 := Out([0], [1], 2);
    assert Next(NOTHING, es[0]) == u1 && Next(u1, es[1]) == u2;
    assert Drained(u2, [true]) == Drained(Out([], [1, 0], 2), []);
    assert Run(NOTHING, es) == Run(u1, es[1..]) == Run(u2, es[1..][1..]) == Run(Next(u2, es[2]), []);
  }

  // The datagrams behind the numbers.

  /** The datagrams with these numbers, payload and address. */
  function At(given: seq<Datagram>, ns: seq<nat>): seq<Datagram>
    requires forall i :: 0 <= i < |ns| ==> ns[i] < |given|
  {
    seq(|ns|, i requires 0 <= i < |ns| => given[ns[i]])
  }

  /** In order, the numbers are 0, 1, 2 and so on, with none missing. */
  lemma {:induction false} AscendingIsAll(u: Out, i: nat)
    requires OnceEach(u) && InOrder(u) && i < |u.wire + u.queue|
    ensures (u.wire + u.queue)[i] == i
    decreases i
  {
    var all := u.wire + u.queue;
    if i > 0 { AscendingIsAll(u, i - 1); }
    NumbersAreBelow(u);
    assert forall j :: 0 <= j < i ==> all[j] <= all[i - 1];
    assert forall j :: i <= j < |all| ==> all[j] >= all[i];
    assert i < u.given ==> exists j :: 0 <= j < |all| && all[j] == i by {
      if i < u.given { IsSomewhere(u, i); }
    }
  }

  lemma IsSomewhere(u: Out, n: nat)
    requires OnceEach(u) && n < u.given
    ensures exists j :: 0 <= j < |u.wire + u.queue| && (u.wire + u.queue)[j] == n
  {
    assert Times(u, n) == 1;
    InOneOfThem(u.wire, u.queue, n);
  }

  lemma InOneOfThem(a: seq<nat>, b: seq<nat>, n: nat)
    requires n in a || n in b
    ensures exists j :: 0 <= j < |a + b| && (a + b)[j] == n
  {
    assert n in a + b;
  }

  /** Without overtaking, the datagrams on the wire, then those queued, are the datagrams given. */
  lemma InOrderMeansGiven(u: Out, given: seq<Datagram>)
    requires OnceEach(u) && InOrder(u) && |given| == u.given
    ensures forall i :: 0 <= i < |u.wire| ==> u.wire[i] < |given|
    ensures forall i :: 0 <= i < |u.queue| ==> u.queue[i] < |given|
    ensures At(given, u.wire) + At(given, u.queue) == given
  {
    var all := u.wire + u.queue;
    NumbersAreBelow(u);
    forall i | 0 <= i < |all| ensures all[i] == i {
      AscendingIsAll(u, i);
    }
    assert |all| > 0 ==> all[|all| - 1] < u.given;
    assert |all| >= u.given by {
      if |all| < u.given { IsSomewhere(u, |all|); }
    }
    hide OnceEach, InOrder;
    AtSplits(given, u.wire, u.queue);
  }

  lemma AtSplits(given: seq<Datagram>, a: seq<nat>, b: seq<nat>)
    requires |a + b| == |given| && forall i :: 0 <= i < |a + b| ==> (a + b)[i] == i
    ensures forall i :: 0 <= i < |a| ==> a[i] < |given|
    ensures forall i :: 0 <= i < |b| ==> b[i] < |given|
    ensures At(given, a) + At(given, b) == given
  {
    assert forall i :: 0 <= i < |a| ==> (a + b)[i] == a[i];
    assert forall i :: 0 <= i < |b| ==> (a + b)[|a| + i] == b[i];
  }

  /** `udp_send_deq`, and a non-blocking socket that answers from a script. */
  class SelectSender {
    var udpSendDeq: seq<Datagram>
    var answers: seq<bool>
    var totalSend: nat
    ghost var wire: seq<Datagram>
    ghost var given: seq<Datagram>
    ghost var queueNos: seq<nat>
    ghost var wireNos: seq<nat>

    ghost function View(): Out
      reads this
    {
      Out(queueNos, wireNos, |given|)
    }

    /** The numbers stand for the datagrams that are really there. */
    ghost predicate Valid()
      reads this
    {
      && (forall i :: 0 <= i < |queueNos| ==> queueNos[i] < |given|)
      && (forall i :: 0 <= i < |wireNos| ==> wireNos[i] < |given|)
      && udpSendDeq == At(given, queueNos) && wire == At(given, wireNos)
    }

    constructor (answers: seq<bool>)
      ensures Valid() && View() == NOTHING && this.answers == answers && totalSend == 0
    {
      udpSendDeq, wire, given, totalSend := [], [], [], 0;
      queueNos, wireNos := [], [];
      this.answers := answers;
      new;
      assert At([], []) == [];
    }

    /** `sendto`: all of the datagram, or an error. */
    method SendTo(d: Datagram) returns (ok: bool)
      modifies `answers, `wire
      ensures ok == (old(answers) != [] && old(answers)[0])
      ensures answers == if old(answers) == [] then [] else old(answers)[1..]
      ensures wire == old(wire) + if ok then [d] else []
    {
      ok := answers != [] && answers[0];
      if answers != [] {
        answers := answers[1..];
      }
      wire := wire + if ok then [d] else [];
    }

    /** `packet_send_imp`. */
    method PacketSendImp(d: Datagram)
      requires Valid()
      modifies this
      ensures Valid() && given == old(given) + [d]
      ensures View() == Sent(old(View()), old(answers) != [] && old(answers)[0])
      ensures totalSend == old(totalSend) + |wire| - |old(wire)|
    {
      ghost var n := |given|;
      var ok := SendTo(d);
      AtGrows(given, d, queueNos);
      AtGrows(given, d, wireNos);
      given := given + [d];
      if !ok {
        udpSendDeq := udpSendDeq + [d];
        queueNos := queueNos + [n];
        assert wire == old(wire);
      } else {
        totalSend := totalSend + 1;
        wireNos := wireNos + [n];
      }
    }

    /** `do_udp_send`. */
    method DoUdpSend()
      requires Valid()
      modifies this
      ensures Valid() && given == old(given)
      ensures View() == Drained(old(View()), old(answers))
      ensures totalSend == old(totalSend) + |wire| - |old(wire)|
    {
      ghost var u, oks := View(), answers;
      while |udpSendDeq| > 0
        invariant Valid() && given == old(given)
        invariant Drained(View(), answers) == Drained(u, oks)
        invariant totalSend == old(totalSend) + |wire| - |old(wire)|
        decreases |udpSendDeq|
      {
        ghost var sent := wire;
        var ok := SendTo(udpSendDeq[0]);
        if ok {
          AtMoves(given, queueNos, wireNos);
          totalSend := totalSend + 1;
          udpSendDeq := udpSendDeq[1..];
          queueNos, wireNos := queueNos[1..], wireNos + [queueNos[0]];
        } else {
          assert wire == sent;
          return;
        }
      }
    }
  }

  lemma AtGrows(given: seq<Datagram>, d: Datagram, ns: seq<nat>)
    requires forall i :: 0 <= i < |ns| ==> ns[i] < |given|
    ensures At(given + [d], ns) == At(given, ns)
    ensures At(given + [d], ns + [|given|]) == At(given, ns) + [d]
  {
  }

  lemma AtMoves(given: seq<Datagram>, queue: seq<nat>, wire: seq<nat>)
    requires forall i :: 0 <= i < |queue| ==> queue[i] < |given|
    requires forall i :: 0 <= i < |wire| ==> wire[i] < |given|
    requires queue != []
    ensures forall i :: 0 <= i < |wire + [queue[0]]| ==> (wire + [queue[0]])[i] < |given|
    ensures At(given, queue[1..]) == At(given, queue)[1..]
    ensures At(given, wire + [queue[0]]) == At(given, wire) + [At(given, queue)[0]]
  {
  }
}
