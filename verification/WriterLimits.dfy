/** When the writer thread of a downloading client is left running for good. */
module WriterLimits {
  import opened Streams
  import opened HttpText
  import opened DownloadClient
  import opened FileThread
  import opened FileServer
  import opened FileServerExamples
  import opened Downloader
  import opened EndToEnd
  import opened Progress

  /** The end mark is on its way to the writer, or has been seen. */
  ghost predicate Told(p: Peer) { EndMark in p.queue || p.held == Some(EndMark) || p.writer == Ended }

  /** `on_rtsocket_read` learns of the end of the connection while the body is read. */
  predicate Tells(w: World, step: Step, c: ClientId) {
    step == Lose(c) && CanStep(w, step) && w.peers[c].fileSize > 0
  }

  /** Step `i` of a run does. */
  ghost predicate ToldAt(disk: Disk, http: Http, steps: seq<Step>, i: nat, c: ClientId)
    requires i < |steps|
  {
    Tells(RunWorld(disk, http, START, steps[..i]), steps[i], c)
  }

  ghost predicate EndWasTold(disk: Disk, http: Http, steps: seq<Step>, c: ClientId) {
    exists i :: 0 <= i < |steps| && ToldAt(disk, http, steps, i, c)
  }

  ghost predicate KnowsTheEnd(w: World, c: ClientId) { c in w.peers && Told(w.peers[c]) }

  lemma TellingStep(http: Http, w: World, step: Step, c: ClientId)
    requires c in w.peers && PeerInv(http, w.peers[c]) && CanStep(w, step) && !step.Serve? && step.c == c
    ensures Told(StepPeer(http, w, step)) <==> Told(w.peers[c]) || Tells(w, step, c)
  {
    hide HeadEnds, NoBlank, Pending, WriteAt, Received;
    var p := w.peers[c];
    match step
    case Receive(_, n) =>
    case Lose(_) => assert p.fileSize > 0 ==> EndMark in OnGone(p).queue by { LastIsIn(p.queue); }
    case Break(_) =>
    case Take(_) => assert p.queue == [p.queue[0]] + p.queue[1..];
    case Write(_, n) =>
  }

  lemma LastIsIn(queue: seq<WriteItem>)
    ensures EndMark in queue + [EndMark]
  {
    assert (queue + [EndMark])[|queue|] == EndMark;
  }

  lemma KnowingStep(disk: Disk, http: Http, w: World, step: Step, c: ClientId)
    requires WorldInv(disk, http, w)
    ensures KnowsTheEnd(StepWorld(disk, http, w, step), c) <==> KnowsTheEnd(w, c) || Tells(w, step, c)
  {
    hide Good, Next, StepPeer, PeerInv, Told;
    if CanStep(w, step) {
      if step.Serve? {
        NewPeerKnowsNothing();
      } else if step.c == c {
        assert LinkInv(http, w.server.clients[c], w.peers[c]);
        hide LinkInv, CanStep;
        TellingStep(http, w, step, c);
      }
    }
  }

  lemma NewPeerKnowsNothing()
    ensures !Told(NEW_PEER)
  {
  }

  lemma {:induction false} RunWorldSnoc(disk: Disk, http: Http, w: World, steps: seq<Step>, step: Step)
    ensures RunWorld(disk, http, w, steps + [step]) == StepWorld(disk, http, RunWorld(disk, http, w, steps), step)
    decreases |steps|
  {
    hide StepWorld;
    if steps == [] {
      assert [] + [step] == [step] && [step][1..] == [];
    } else {
      RunWorldSnoc(disk, http, StepWorld(disk, http, w, steps[0]), steps[1..], step);
      assert (steps + [step])[1..] == steps[1..] + [step];
    }
  }

  lemma ToldSnoc(disk: Disk, http: Http, steps: seq<Step>, c: ClientId)
    requires steps != []
    ensures var init, step := steps[..|steps| - 1], steps[|steps| - 1];
      EndWasTold(disk, http, steps, c)
      <==> EndWasTold(disk, http, init, c) || Tells(RunWorld(disk, http, START, init), step, c)
  {
    hide RunWorld, Tells;
    var init := steps[..|steps| - 1];
    assert steps[..|init|] == init;
    assert ToldAt(disk, http, steps, |init|, c) <==> Tells(RunWorld(disk, http, START, init), steps[|init|], c);
    forall i | 0 <= i < |init| ensures ToldAt(disk, http, steps, i, c) <==> ToldAt(disk, http, init, i, c) {
      assert steps[..i] == init[..i];
    }
    hide ToldAt;
  }

  /** Over every run: the end mark is queued, held or seen exactly when the connection was reported
      closed while the body was being read; neither the error event nor a close during the head, nor
      after a head that announces nothing, tells the writer. */
  lemma {:induction false} ToldExactlyWhenClosedInBody(disk: Disk, http: Http, steps: seq<Step>, c: ClientId)
    ensures KnowsTheEnd(RunWorld(disk, http, START, steps), c) <==> EndWasTold(disk, http, steps, c)
    decreases |steps|
  {
    if steps != [] {
      hide WorldInv, StepWorld, EndWasTold, Tells, KnowsTheEnd, RunWorld;
      var init, step := steps[..|steps| - 1], steps[|steps| - 1];
      ToldExactlyWhenClosedInBody(disk, http, init, c);
      assert steps == init + [step];
      RunWorldSnoc(disk, http, START, init, step);
      StartIsFine(disk, http);
      RunWorldKeeps(disk, http, START, init);
      KnowingStep(disk, http, RunWorld(disk, http, START, init), step, c);
      ToldSnoc(disk, http, steps, c);
    }
  }

  /** The connection is gone, and the writer has nothing to take or to write. */
  predicate Settled(p: Peer) { !p.live && p.queue == [] && p.held.None? }

  lemma WriterOf(http: Http, p: Peer)
    requires PeerInv(http, p) && Settled(p) && p.writer != Failed && |p.body| <= p.fileSize
    ensures p.writer == Running <==>
              if p.fileSize > 0 then |p.body| < p.fileSize && !Told(p)
              else !NoBlank(p.lines) && http(p.lines) == Some(0)
  {
    if p.fileSize > 0 {
      CompleteMeansWhole(http, p);
      assert Pending(p.queue) == [];
    }
    hide HeadEnds, Pending;
  }

  /** Over every run: the writer of a connection that is gone and has nothing queued is left running
      exactly when part of the announced body is missing and the connection was not reported closed
      in the body, or when the head announced nothing. */
  lemma LeftRunningExactlyWhenNotTold(disk: Disk, http: Http, steps: seq<Step>, c: ClientId)
    requires var w := RunWorld(disk, http, START, steps);
      c in w.peers && Settled(w.peers[c]) && w.peers[c].writer != Failed && |w.peers[c].body| <= w.peers[c].fileSize
    ensures var p := RunWorld(disk, http, START, steps).peers[c];
      p.writer == Running <==>
        if p.fileSize > 0 then |p.body| < p.fileSize && !EndWasTold(disk, http, steps, c)
        else !NoBlank(p.lines) && http(p.lines) == Some(0)
  {
    var w := RunWorld(disk, http, START, steps);
    StartIsFine(disk, http);
    RunWorldKeeps(disk, http, START, steps);
    assert LinkInv(http, w.server.clients[c], w.peers[c]);
    ToldExactlyWhenClosedInBody(disk, http, steps, c);
    hide RunWorld, EndWasTold, Good, PeerInv, Told;
    WriterOf(http, w.peers[c]);
  }

  lemma SettledStep(disk: Disk, http: Http, w: World, c: ClientId, step: Step)
    requires c in w.peers && c in w.server.clients && Settled(w.peers[c])
    ensures var t := StepWorld(disk, http, w, step);
      c in t.peers && c in t.server.clients && t.peers[c] == w.peers[c]
  {
    hide Next, StepPeer, Stranded, Want, Received;
    if step.Serve? { ClientsNeverForgotten(disk, w.server, step.e); }
  }

  /** And it is left running for good: nothing happens to it in any further run. */
  lemma {:induction false} SettledForGood(disk: Disk, http: Http, w: World, c: ClientId, more: seq<Step>)
    requires c in w.peers && c in w.server.clients && Settled(w.peers[c])
    ensures var t := RunWorld(disk, http, w, more); c in t.peers && t.peers[c] == w.peers[c]
    decreases |more|
  {
    if more != [] {
      hide StepWorld;
      SettledStep(disk, http, w, c, more[0]);
      SettledForGood(disk, http, StepWorld(disk, http, w, more[0]), c, more[1..]);
    }
  }

  // A run that does so.

  function Serves(es: seq<Event>): seq<Step> {
    if es == [] then [] else [Serve(es[0])] + Serves(es[1..])
  }

  ghost predicate Untouched(w: World) { forall c :: c in w.peers ==> w.peers[c] == NEW_PEER }

  lemma {:induction false} ServesTouchNobody(disk: Disk, http: Http, w: World, es: seq<Event>)
    requires Untouched(w)
    ensures Untouched(RunWorld(disk, http, w, Serves(es)))
    ensures RunWorld(disk, http, w, Serves(es)).server == Run(disk, w.server, es)
    decreases |es|
  {
    if es != [] {
      hide Next, Enabled, StepPeer;
      assert Serves(es)[1..] == Serves(es[1..]);
      UntouchedStep(disk, http, w, es[0]);
      ServesTouchNobody(disk, http, StepWorld(disk, http, w, Serve(es[0])), es[1..]);
    }
  }

  lemma UntouchedStep(disk: Disk, http: Http, w: World, e: Event)
    requires Untouched(w)
    ensures var t := StepWorld(disk, http, w, Serve(e)); Untouched(t) && t.server == Next(disk, w.server, e)
  {
    hide Exec, Handled, Apply;
  }

  /** The server answers a request for a file of one byte, and the client reads `k` bytes of the
      reply head, one by one. */
  function HeadSteps(k: nat): seq<Step> {
    if k == 0 then Serves(AskRun([7], 0, [])) else HeadSteps(k - 1) + [Receive(0, 1)]
  }

  lemma HeadIsShort()
    ensures |ReplyHead(0, 1)| < LINE_BUFFER
  {
    ReplyHeadShape(1);
    hide ReplyHead;
    assert |Decimal(1)| == 1;
  }

  /** On a good reply head the receiver does not give up. */
  lemma StaysLive(http: Http, p: Peer, b: byte, size: nat)
    requires HeadInv(http, p) && p.fileSize == 0 && p.live && !Stranded(p)
    requires HttpDecodes(http) && size > 0 && Received(p) + [b] <= ReplyHead(0, size) && |Received(p)| + 1 < LINE_BUFFER
    ensures OnHeadByte(http, p, b).live
  {
    var lines := p.lines + (p.buf + [b]);
    assert lines == Received(p) + [b];
    ReplyHeadEnds(0, size);
    assert http(ReplyHead(0, size)) == Some(size);
    hide ReplyHead, HeadEnds, NoBlank, NoLf, Blank;
    if b == LF && Blank(p.buf + [b]) {
      LineMeans(p);
      HeadIsAlone(lines, ReplyHead(0, size), ReplyHead(0, size));
    }
  }

  /** A client that has read some of the head, and nothing else has happened to it. */
  ghost predicate InHead(w: World, k: nat) {
    && k <= |ReplyHead(0, 1)|
    && w.server == Alone(Opened(Asked(0), [7], true), TheRest([7], 0), Held(1), [])
    && 0 in w.peers
    && var p := w.peers[0];
       p.live && Received(p) == ReplyHead(0, 1)[..k] && p.queue == [] && p.held.None? && p.writer != Failed
  }

  lemma HeadBegins(http: Http)
    ensures InHead(RunWorld(OnDisk([7]), http, START, HeadSteps(0)), 0)
  {
    hide Good, Run, RunWorld, ReplyHead, AskRun, Serves, LinkInv, Opened;
    var es := AskRun([7], 0, []);
    var w := RunWorld(OnDisk([7]), http, START, Serves(es));
    ServesTouchNobody(OnDisk([7]), http, START, es);
    AskReaches([7], 0, []);
    StartIsFine(OnDisk([7]), http);
    RunWorldKeeps(OnDisk([7]), http, START, Serves(es));
    ThenEnds(OnDisk([7]), Alone(Opened(Asked(0), [7], true), TheRest([7], 0), Held(1), []));
    assert w.peers.Keys == w.server.clients.Keys == {0};
  }

  /** A receiver that has read the first `k` bytes of a head goes on reading it. */
  lemma HeadByteIn(http: Http, cl: Client, p: Peer, k: nat, size: nat)
    requires LinkInv(http, cl, p) && HttpDecodes(http) && size > 0 && cl.accepted == ReplyHead(0, size)
    requires k < |cl.accepted| < LINE_BUFFER && Received(p) == cl.accepted[..k] && p.live
    ensures p.fileSize == 0 && HeadInv(http, p) && !Stranded(p)
    ensures OnHeadByte(http, p, cl.accepted[k]).live
    ensures Received(OnHeadByte(http, p, cl.accepted[k])) == cl.accepted[..k + 1]
  {
    var head := ReplyHead(0, size);
    hide ReplyHead, Stranded, OnHeadByte;
    assert head + [] == head && head[..k] + [head[k]] == head[..k + 1];
    NotStranded(http, cl, p, size, []);
    if p.fileSize > 0 {
      HeadIsTheReply(http, cl, p, size, []);
      assert false;
    }
    hide HeadInv;
    StaysLive(http, p, head[k], size);
    HeadByteKeeps(http, p, head[k]);
  }

  lemma OnlyTheHeadMoves(http: Http, p: Peer, b: byte)
    requires p.queue == [] && p.held.None? && p.writer != Failed
    ensures var q := OnHeadByte(http, p, b); q.queue == [] && q.held.None? && q.writer != Failed
  {
  }

  lemma HeadByteArrives(http: Http, w: World, k: nat)
    requires WorldInv(OnDisk([7]), http, w) && HttpDecodes(http) && InHead(w, k) && k < |ReplyHead(0, 1)|
    ensures InHead(StepWorld(OnDisk([7]), http, w, Receive(0, 1)), k + 1)
  {
    var cl, p := w.server.clients[0], w.peers[0];
    assert cl.accepted == ReplyHead(0, 1) && LinkInv(http, cl, p);
    HeadIsShort();
    hide ReplyHead, Good, Opened, TheRest, LinkInv, OnHeadByte, HeadInv, WorldInv;
    HeadByteIn(http, cl, p, k, 1);
    OnlyTheHeadMoves(http, p, cl.accepted[k]);
    hide Received;
    OneByteStep(http, w, k);
  }

  lemma OneByteStep(http: Http, w: World, k: nat)
    requires 0 in w.peers && 0 in w.server.clients && k < |w.server.clients[0].accepted|
    requires var p := w.peers[0]; p.live && p.fileSize == 0 && !Stranded(p) && |Received(p)| == k
    ensures StepWorld(OnDisk([7]), http, w, Receive(0, 1))
         == w.(peers := w.peers[0 := OnHeadByte(http, w.peers[0], w.server.clients[0].accepted[k])])
  {
    hide OnHeadByte, Received, Stranded;
    var accepted := w.server.clients[0].accepted;
    assert accepted[k..k + 1] == [accepted[k]];
  }

  lemma {:induction false} HeadIsRead(http: Http, k: nat)
    requires HttpDecodes(http) && k <= |ReplyHead(0, 1)|
    ensures InHead(RunWorld(OnDisk([7]), http, START, HeadSteps(k)), k)
  {
    if k == 0 {
      HeadBegins(http);
    } else {
      hide InHead, RunWorld, ReplyHead, StepWorld, WorldInv;
      HeadIsRead(http, k - 1);
      RunWorldSnoc(OnDisk([7]), http, START, HeadSteps(k - 1), Receive(0, 1));
      StartIsFine(OnDisk([7]), http);
      RunWorldKeeps(OnDisk([7]), http, START, HeadSteps(k - 1));
      HeadByteArrives(http, RunWorld(OnDisk([7]), http, START, HeadSteps(k - 1)), k - 1);
    }
  }

  function ErrorSteps(): seq<Step> { HeadSteps(|ReplyHead(0, 1)|) + [Break(0)] }

  /** The error event behind the reply head: the writer is left running, whatever comes. */
  lemma WriterIsLeftRunning(http: Http, more: seq<Step>)
    requires HttpDecodes(http)
    ensures var t := RunWorld(OnDisk([7]), http, RunWorld(OnDisk([7]), http, START, ErrorSteps()), more);
            0 in t.peers && Settled(t.peers[0]) && t.peers[0].fileSize == 1 && t.peers[0].writer == Running
  {
    var n, d := |ReplyHead(0, 1)|, OnDisk([7]);
    var w := RunWorld(d, http, START, HeadSteps(n));
    HeadIsRead(http, n);
    StartIsFine(d, http);
    RunWorldKeeps(d, http, START, HeadSteps(n));
    RunWorldSnoc(d, http, START, HeadSteps(n), Break(0));
    hide RunWorld, HeadSteps, StepWorld, ReplyHead;
    WriterAfterHead(http, w);
    BreakSettles(d, http, w);
    SettledForGood(d, http, StepWorld(d, http, w, Break(0)), 0, more);
  }

  lemma WriterAfterHead(http: Http, w: World)
    requires WorldInv(OnDisk([7]), http, w) && HttpDecodes(http) && InHead(w, |ReplyHead(0, 1)|)
    ensures w.peers[0].fileSize == 1 && w.peers[0].writer == Running
  {
    var cl, p := w.server.clients[0], w.peers[0];
    var head := ReplyHead(0, 1);
    assert cl.accepted == head && LinkInv(http, cl, p);
    assert http(head) == Some(1);
    hide ReplyHead, Good, Opened, TheRest, Asked, Held;
    assert head[..|head|] == head && head + [] == head;
    HeadIsKnown(http, p, 1);
    HeadIsTheReply(http, cl, p, 1, []);
    hide HeadEnds, Pending;
  }

  lemma BreakSettles(disk: Disk, http: Http, w: World)
    requires 0 in w.peers && w.peers[0].live && w.peers[0].queue == [] && w.peers[0].held.None? && 0 in w.server.clients
    ensures var t := StepWorld(disk, http, w, Break(0));
      && 0 in t.peers && 0 in t.server.clients && t.peers[0] == w.peers[0].(live := false) && Settled(t.peers[0])
  {
  }
}
