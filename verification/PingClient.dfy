/** The ping client: its sockets, its packet counter and its table, updated in place. */
module PingClient {
  import opened Streams
  import opened Transport
  import opened Frames
  import opened PacketReader
  import opened PingProtocol
  import opened PingSystem

  /** What all sockets of a client share: `sent_packet_info_map`, `s_packet_seq` and `run`.
      `missed` counts lookups that found nothing. */
  class PingContext {
    var table: Table
    var packetSeq: nat
    var run: bool
    ghost var missed: nat

    constructor ()
      ensures table == map[] && packetSeq == 0 && run && missed == 0
    {
      table, packetSeq, run, missed := map[], 0, true, 0;
    }
  }

  /** One socket of the client; `started` are the packets begun on it. */
  class PingSocket {
    const socket: RtSocket
    const io: SocketIo
    ghost var started: seq<Frame>

    constructor (socket: RtSocket, io: SocketIo)
      requires socket.accepted == [] && socket.received == []
      requires io.sendDeq == [] && io.recvBuffer == null && io.recvPos == 0
      ensures this.socket == socket && this.io == io && started == []
      ensures SendingOk() && ReceivingOk()
    {
      this.socket, this.io, started := socket, io, [];
      assert Parse(CLIENT_MAX, []) == Parsed([], [], true);
    }

    /** The client's end of the connection; `down` is everything on its way or read. */
    ghost function View(): Link
      reads this, socket
    {
      Link(started, socket.accepted, [], socket.received + socket.arriving, socket.received)
    }

    /** Bytes accepted, then bytes queued, are the packets started, and at most one is queued. */
    ghost predicate SendingOk()
      reads this, socket, io
    {
      DeqOk(io.sendDeq) && |io.sendDeq| <= 1 && socket.accepted + Unsent(io.sendDeq) == Join(started)
    }

    ghost predicate ReceivingOk()
      reads this, socket, io, io.recvBuffer
    {
      && BufferOk(io)
      && Parse(CLIENT_MAX, socket.received).good
      && Parse(CLIENT_MAX, socket.received).rest == io.Filled()
    }
  }

  /** A packet: its length, its number, and whatever the memory held. */
  method MakePacket(size: nat, n: nat) returns (buffer: array<byte>)
    requires size in {100, 300, 500, 800, 1100} && n < SEQ_SPACE
    ensures fresh(buffer) && buffer.Length == size && PingFrame(buffer[..], n)
    ensures Le32(buffer[..4]) == size && Le32(buffer[4..8]) == n
  {
    buffer := new byte[size];
    var lengthField, numberField := Enc32(size), Enc32(n);
    for i := 0 to 4
      invariant buffer[..i] == lengthField[..i]
    {
      buffer[i] := lengthField[i];
    }
    for i := 0 to 4
      invariant buffer[..4] == lengthField
      invariant buffer[4..4 + i] == numberField[..i]
    {
      buffer[4 + i] := numberField[i];
    }
    assert buffer[..][..4] == lengthField && buffer[..][4..8] == numberField;
    assert Le32(buffer[..]) == Le32(buffer[..][..4]);
  }

  /** The first `k` bytes of a packet accepted behind whole packets. */
  lemma PartAccepted(started: seq<Frame>, f: Frame, accepted: seq<byte>, k: nat)
    requires accepted == Join(started) && k <= |f|
    ensures accepted + f[..k] <= Join(started + [f])
    ensures k == |f| ==> accepted + f[..k] == Join(started + [f])
    ensures k < |f| ==> accepted + f[..k] + Unsent([SendItem(f, k)]) == Join(started + [f])
  {
    JoinSnoc(started, f);
    assert f[..k] + f[k..] == f;
    if k < |f| {
      assert Unsent([SendItem(f, k)]) == f[k..] + Unsent([]);
    }
  }

  /** One round of the loop in `send_ping_packet`. */
  method SendOnePing(ctx: PingContext, p: PingSocket) returns (whole: bool, ghost f: Frame)
    requires p.io.sendDeq == [] && p.socket.accepted == Join(p.started) && ctx.packetSeq < SEQ_SPACE
    modifies ctx`table, ctx`packetSeq, p`started, p.socket`sendPlan, p.socket`sends, p.socket`accepted, p.io`sendDeq
    ensures ctx.packetSeq == (old(ctx.packetSeq) + 1) % SEQ_SPACE
    ensures PingFrame(f, ctx.packetSeq) && p.started == old(p.started) + [f]
    ensures ctx.table == old(ctx.table)[ctx.packetSeq := |f|]
    ensures old(p.socket.accepted) <= p.socket.accepted <= Join(p.started)
    ensures p.SendingOk() && (whole <==> p.io.sendDeq == [])
    ensures var n := SendResult(p.socket.live, old(p.socket.sendPlan), |f|);
      && p.socket.accepted == old(p.socket.accepted) + f[..if n > 0 then n else 0]
      && p.socket.sends == old(p.socket.sends) + [n]
    ensures whole ==> p.socket.accepted == Join(p.started)
  {
    hide Join, Unsent, FrameOk, SeqOf;
    var randBytes :| randBytes in PACKET_SIZES;
    ctx.packetSeq := (ctx.packetSeq + 1) % SEQ_SPACE;
    var buffer := MakePacket(randBytes, ctx.packetSeq);
    f := buffer[..];
    var sendRet := p.socket.Send(buffer[..]);
    ctx.table := ctx.table[ctx.packetSeq := randBytes];
    var pos := if sendRet > 0 then sendRet else 0;
    PartAccepted(p.started, f, old(p.socket.accepted), pos);
    assert f[..0] == [] && old(p.socket.accepted) + [] == old(p.socket.accepted);
    p.started := p.started + [f];
    if sendRet < randBytes {
      p.io.sendDeq := p.io.sendDeq + [SendItem(buffer[..], pos)];
      assert p.io.sendDeq == [SendItem(f, pos)];
      whole := false;
    } else {
      UnsentNothing(p.socket.accepted);
      whole := true;
    }
  }

  lemma UnsentNothing(s: seq<byte>)
    ensures s + Unsent([]) == s
  {
  }

  lemma NumberedSnoc(fs: seq<Frame>, first: nat, n: nat, f: Frame)
    requires Numbered(fs, first + 1) && n == (first + |fs|) % SEQ_SPACE && PingFrame(f, (n + 1) % SEQ_SPACE)
    ensures Numbered(fs + [f], first + 1)
    ensures (n + 1) % SEQ_SPACE == (first + |fs + [f]|) % SEQ_SPACE
  {
    hide PingFrame;
    assert (n + 1) % SEQ_SPACE == (first + 1 + |fs|) % SEQ_SPACE;
    forall i | 0 <= i < |fs + [f]| ensures PingFrame((fs + [f])[i], (first + 1 + i) % SEQ_SPACE) {
      if i < |fs| { assert (fs + [f])[i] == fs[i]; }
    }
  }

  lemma RecordedSnoc(t: Table, fs: seq<Frame>, f: Frame)
    requires |f| >= 8 && forall i :: 0 <= i < |fs| ==> |fs[i]| >= 8
    ensures forall i :: 0 <= i < |fs + [f]| ==> |(fs + [f])[i]| >= 8
    ensures Recorded(t, fs + [f]) == Recorded(t, fs)[SeqOf(f) := |f|]
  {
    assert (fs + [f])[..|fs|] == fs;
  }

  /** A series of pings `fs`: the connection, the table and the counter before and after. */
  ghost predicate Series(l0: Link, l: Link, t0: Table, t: Table, n0: nat, n: nat, fs: seq<Frame>) {
    && SendStep(l0, l, fs, n0)
    && n == (n0 + |fs|) % SEQ_SPACE
    && (forall i :: 0 <= i < |fs| ==> |fs[i]| >= 8)
    && t == Recorded(t0, fs)
  }

  /** `send_ping_packet`: up to `packetNum` packets, none while one is still queued, and no more
      after one that was not taken whole. */
  method SendPingPacket(ctx: PingContext, p: PingSocket, packetNum: nat, connected: bool)
    returns (ghost fs: seq<Frame>)
    requires p.SendingOk() && ctx.packetSeq < SEQ_SPACE
    modifies ctx`table, ctx`packetSeq, p`started, p.socket`sendPlan, p.socket`sends, p.socket`accepted, p.io`sendDeq
    ensures p.SendingOk() && ctx.packetSeq < SEQ_SPACE
    ensures |old(p.io.sendDeq)| > 0 || !connected ==>
              && fs == [] && p.View() == old(p.View())
              && ctx.table == old(ctx.table) && ctx.packetSeq == old(ctx.packetSeq)
    ensures |old(p.io.sendDeq)| == 0 && connected ==>
              && Series(old(p.View()), p.View(), old(ctx.table), ctx.table, old(ctx.packetSeq), ctx.packetSeq, fs)
              && |fs| <= packetNum
              && (|fs| < packetNum ==> p.io.sendDeq != [])
              && |p.socket.sends| == |old(p.socket.sends)| + |fs|
  {
    fs := [];
    if |p.io.sendDeq| > 0 || !connected {
      return;
    }
    hide Join, Unsent, PingFrame, Series, SeqOf, SendResult, FrameOk;
    UnsentNothing(p.socket.accepted);
    ghost var l0, t0, n0, calls := p.View(), ctx.table, ctx.packetSeq, |p.socket.sends|;
    SendNothing(l0, t0, n0);
    for i := 0 to packetNum
      invariant |fs| == i && p.io.sendDeq == [] && p.SendingOk()
      invariant |p.socket.sends| == calls + |fs|
      invariant p.socket.accepted == Join(p.started) && ctx.packetSeq < SEQ_SPACE
      invariant Series(l0, p.View(), t0, ctx.table, n0, ctx.packetSeq, fs)
    {
      ghost var l, t, n := p.View(), ctx.table, ctx.packetSeq;
      var whole;
      ghost var f;
      whole, f := SendOnePing(ctx, p);
      SendOneMore(l0, l, p.View(), t0, t, n0, n, fs, f);
      fs := fs + [f];
      if !whole {
        return;
      }
    }
  }

  lemma SendNothing(l: Link, t: Table, n: nat)
    requires l.up == Join(l.started) && n < SEQ_SPACE
    ensures Series(l, l, t, t, n, n, [])
  {
    assert l.started + [] == l.started;
  }

  /** A series of packets, all accepted whole, and one more. */
  lemma SendOneMore(l0: Link, l: Link, l': Link, t0: Table, t: Table, n0: nat, n: nat, fs: seq<Frame>, f: Frame)
    requires Series(l0, l, t0, t, n0, n, fs) && l.up == Join(l.started) && PingFrame(f, (n + 1) % SEQ_SPACE)
    requires l' == l.(started := l.started + [f], up := l'.up)
    requires l.up <= l'.up <= Join(l'.started)
    ensures Series(l0, l', t0, t[(n + 1) % SEQ_SPACE := |f|], n0, (n + 1) % SEQ_SPACE, fs + [f])
  {
    assert (fs + [f])[..|fs + [f]| - 1] == fs;
    assert l'.started == l0.started + (fs + [f]);
    assert |f| >= 8 && SeqOf(f) == (n + 1) % SEQ_SPACE;
    hide Join, SeqOf, FrameOk;
    NumberedSnoc(fs, n0, n, f);
    RecordedSnoc(t0, fs, f);
    hide Numbered, PingFrame;
  }

  /** `on_rtsocket_write`. */
  method OnRtsocketWrite(p: PingSocket)
    requires p.SendingOk()
    modifies p.socket`sendPlan, p.socket`sends, p.socket`accepted, p.io`sendDeq
    ensures p.SendingOk() && FlushStep(old(p.View()), p.View())
    ensures if p.io.sendDeq == [] then Gave(old(p.socket.sends), p.socket.sends)
            else exists n :: Declined(old(p.socket.sends), p.socket.sends, n)
  {
    hide Join, Unsent, Flush, Advance;
    ghost var deq, plan := p.io.sendDeq, p.socket.sendPlan;
    var _ := RtsocketSendData(p.socket, p.io);
    FlushConserves(p.socket.live, deq, plan);
    Regroup(old(p.socket.accepted), Flush(p.socket.live, deq, plan).sent, Unsent(p.io.sendDeq));
  }

  datatype ReadEnd = WaitsForMore | ConnectionClosed | Stopped

  /** Reading on one connection since `l0`: `ns` were looked up. */
  ghost predicate Reading(l0: Link, l: Link, t0: Table, t: Table, m0: nat, m: nat, ns: seq<nat>) {
    ReceiveStep(l0, l, t0, t, m0, m, ns) && |Answered(l0)| <= |Answered(l)|
  }

  lemma ReceiveNothing(l: Link, t: Table, missed: nat)
    requires l.got <= l.down
    ensures Reading(l, l, t, t, missed, missed, [])
  {
    assert NewFrames(l.got, l.got) == [];
  }

  /** More bytes, and one more packet among them. */
  lemma ReceiveOneMore(l0: Link, l: Link, l': Link, t0: Table, t: Table, m0: nat, m: nat, ns: seq<nat>,
                       f: Frame, n: nat)
    requires Reading(l0, l, t0, t, m0, m, ns)
    requires l' == l.(got := l'.got) && l.got <= l'.got <= l.down
    requires Answered(l') == Answered(l) + [f] && (|f| >= 8 ==> n == SeqOf(f))
    ensures Reading(l0, l', t0, t - {n}, m0, m + (if n in t then 0 else 1), ns + [n])
  {
    hide NewFrames, Answered, SeqOf, LookedUp, Erased, Missed;
    NewFramesGrow(l0, l, l', f);
    LookUpOneMore(NewFrames(l0.got, l.got), t0, ns, f, n);
  }

  lemma NewFramesGrow(l0: Link, l: Link, l': Link, f: Frame)
    requires |Answered(l0)| <= |Answered(l)| && Answered(l') == Answered(l) + [f]
    ensures NewFrames(l0.got, l'.got) == NewFrames(l0.got, l.got) + [f]
    ensures |Answered(l0)| <= |Answered(l')|
  {
    hide Parse;
  }

  lemma LookUpOneMore(fs: seq<Frame>, t: Table, ns: seq<nat>, f: Frame, n: nat)
    requires LookedUp(fs, ns) && (|f| >= 8 ==> n == SeqOf(f))
    ensures LookedUp(fs + [f], ns + [n])
    ensures Erased(t, ns + [n]) == Erased(t, ns) - {n}
    ensures Missed(t, ns + [n]) == Missed(t, ns) + if n in Erased(t, ns) then 0 else 1
  {
    hide SeqOf;
    assert (ns + [n])[..|ns|] == ns;
  }

  /** More bytes, but no packet is complete. */
  lemma ReceiveNoMore(l0: Link, l: Link, l': Link, t0: Table, t: Table, m0: nat, m: nat, ns: seq<nat>)
    requires Reading(l0, l, t0, t, m0, m, ns)
    requires l' == l.(got := l'.got) && l.got <= l'.got <= l.down && Answered(l') == Answered(l)
    ensures Reading(l0, l', t0, t, m0, m, ns)
  {
    hide Parse;
  }

  lemma GotIsPrefix(got: seq<byte>, arriving: seq<byte>)
    ensures got <= got + arriving
  {
  }

  lemma SeqInBuffer(buffer: seq<byte>, size: nat)
    requires 8 <= size <= |buffer|
    ensures SeqOf(buffer[..size]) == Le32(buffer[4..8])
  {
    assert buffer[..size][4..8] == buffer[4..8];
  }

  /** A complete packet in the receive buffer: look its number up, strike it off, start afresh. */
  method StrikeOff(ctx: PingContext, io: SocketIo, size: nat) returns (ghost n: nat)
    requires io.recvBuffer != null && BufferOk(io) && size == io.recvPos
    modifies ctx`table, ctx`missed, io`recvPos
    ensures size >= 8 ==> n == SeqOf(old(io.Filled()))
    ensures ctx.table == old(ctx.table) - {n}
    ensures ctx.missed == old(ctx.missed) + if n in old(ctx.table) then 0 else 1
    ensures BufferOk(io) && io.Filled() == []
  {
    hide SeqOf, Le32;
    var packetSeq := Le32(io.recvBuffer[4..8]);
    n := packetSeq;
    if size >= 8 {
      SeqInBuffer(io.recvBuffer[..], size);
      assert io.recvBuffer[..][..size] == io.Filled() && io.recvBuffer[..][4..8] == io.recvBuffer[4..8];
    }
    if packetSeq !in ctx.table {
      ctx.missed := ctx.missed + 1;
    }
    io.recvPos := 0;
    ctx.table := ctx.table - {packetSeq};
  }

  /** One round of `on_rtsocket_read`. */
  method ReadOne(ctx: PingContext, p: PingSocket, ghost l0: Link, ghost t0: Table, ghost m0: nat, ghost ns: seq<nat>)
    returns (got: Got, ghost ns': seq<nat>)
    requires p.ReceivingOk() && p.socket.live && p.io.recvBuffer != null
    requires Reading(l0, p.View(), t0, ctx.table, m0, ctx.missed, ns)
    modifies ctx`table, ctx`missed, p.io`recvPos, p.io.recvBuffer
    modifies p.socket`recvPlan, p.socket`recvs, p.socket`arriving, p.socket`received, p.socket`log
    ensures Reading(l0, p.View(), t0, ctx.table, m0, ctx.missed, ns')
    ensures ReceiveStep(l0, p.View(), t0, ctx.table, m0, ctx.missed, ns')
    ensures got.Packet? ==> |p.socket.arriving| < |old(p.socket.arriving)|
    ensures got.PeerGone? ==> Declined(old(p.socket.recvs), p.socket.recvs, 0)
    ensures got.Waiting? ==> exists n :: n != 0 && Declined(old(p.socket.recvs), p.socket.recvs, n)
    ensures got.Packet? || got.Invalid? ==> Gave(old(p.socket.recvs), p.socket.recvs)
    ensures if got.Invalid? then !Parse(CLIENT_MAX, p.socket.received).good else p.ReceivingOk()
  {
    hide Parse, SeqOf, Reading, Le32, Gave, Declined;
    ghost var l, t, m := p.View(), ctx.table, ctx.missed;
    got := ReceivePacket(p.socket, p.io, CLIENT_MAX, Parse(CLIENT_MAX, p.socket.received).frames);
    GotIsPrefix(p.socket.received, p.socket.arriving);
    if got.Packet? {
      ghost var f := p.io.Filled();
      ghost var n := StrikeOff(ctx, p.io, got.size);
      ReceiveOneMore(l0, l, p.View(), t0, t, m0, m, ns, f, n);
      ns' := ns + [n];
    } else {
      ReceiveNoMore(l0, l, p.View(), t0, t, m0, m, ns);
      ns' := ns;
    }
    StepSoFar(l0, p.View(), t0, ctx.table, m0, ctx.missed, ns');
  }

  lemma StepSoFar(l0: Link, l: Link, t0: Table, t: Table, m0: nat, m: nat, ns: seq<nat>)
    requires Reading(l0, l, t0, t, m0, m, ns)
    ensures ReceiveStep(l0, l, t0, t, m0, m, ns)
  {
  }

  /** `on_rtsocket_read`: every packet received is looked up and struck off; `ns` are the numbers. */
  method OnRtsocketRead(ctx: PingContext, p: PingSocket) returns (end: ReadEnd, ghost ns: seq<nat>)
    requires p.ReceivingOk() && p.socket.live
    modifies ctx`table, ctx`run, ctx`missed, p.io`recvBuffer, p.io`recvPos, p.io`recvLen, p.io.recvBuffer
    modifies p.socket`recvPlan, p.socket`recvs, p.socket`arriving, p.socket`received, p.socket`log, p.socket`live
    ensures ReceiveStep(old(p.View()), p.View(), old(ctx.table), ctx.table, old(ctx.missed), ctx.missed, ns)
    ensures end.WaitsForMore? ==> p.ReceivingOk() && p.socket.live && ctx.run == old(ctx.run)
    ensures end.WaitsForMore? ==> exists n :: n != 0 && Declined(old(p.socket.recvs), p.socket.recvs, n)
    ensures end.ConnectionClosed? ==>
      Declined(old(p.socket.recvs), p.socket.recvs, 0) && !p.socket.live && ctx.run == old(ctx.run)
    ensures end.Stopped? ==>
      Gave(old(p.socket.recvs), p.socket.recvs) && !ctx.run && !Parse(4096, p.socket.received).good
  {
    hide Parse, ReceiveStep, Reading, Gave, Declined;
    ns := [];
    ghost var l0, t0, m0, recvs0 := p.View(), ctx.table, ctx.missed, p.socket.recvs;
    NothingAsked(recvs0);
    GotIsPrefix(p.socket.received, p.socket.arriving);
    ReceiveNothing(l0, t0, m0);
    while true
      invariant p.ReceivingOk() && p.socket.live && ctx.run == old(ctx.run)
      invariant p.io.recvBuffer == old(p.io.recvBuffer) || fresh(p.io.recvBuffer)
      invariant Reading(l0, p.View(), t0, ctx.table, m0, ctx.missed, ns)
      invariant Gave(recvs0, p.socket.recvs)
      decreases |p.socket.arriving|
    {
      if p.io.recvBuffer == null {
        p.io.recvLen := RECV_BUFFER;
        p.io.recvPos := 0;
        p.io.recvBuffer := new byte[RECV_BUFFER];
      }
      var got;
      ghost var recvs := p.socket.recvs;
      got, ns := ReadOne(ctx, p, l0, t0, m0, ns);
      match got {
        case Packet(_) =>
          GaveTwice(recvs0, recvs, p.socket.recvs);
        case PeerGone =>
          GaveThenDeclined(recvs0, recvs, p.socket.recvs, 0);
          p.socket.Close();
          return ConnectionClosed, ns;
        case Invalid =>
          GaveTwice(recvs0, recvs, p.socket.recvs);
          ctx.run := false;
          return Stopped, ns;
        case Waiting =>
          ghost var n :| n != 0 && Declined(recvs, p.socket.recvs, n);
          GaveThenDeclined(recvs0, recvs, p.socket.recvs, n);
          return WaitsForMore, ns;
      }
    }
  }
}
