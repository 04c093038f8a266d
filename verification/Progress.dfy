/** When a transfer can go on: exactly when a transfer that is not complete is stuck. */
module Progress {
  import opened Streams
  import opened Transport
  import opened HttpText
  import opened DownloadClient
  import opened FileThread
  import opened DownloadInvariant
  import opened FileServer
  import opened FileServerTheorems
  import opened FileServerLimits
  import opened Downloader
  import opened EndToEnd

  /** What a step may have brought the transfer of client `c` nearer by: its operation or completion
      moved up in its queue or was worked off, the transport took or delivered bytes, the writer
      took or finished an item. */
  ghost predicate Advances(w: World, t: World, c: ClientId)
    requires c in w.server.clients && c in w.peers
  {
    && c in t.server.clients && c in t.peers
    && (|| (OpsOf(w.server.ops, c) != [] && t.server.ops == w.server.ops[1..])
        || (PostedOf(w.server.posted, c) != [] && t.server.posted == w.server.posted[1..])
        || |t.server.clients[c].accepted| > |w.server.clients[c].accepted|
        || |Received(t.peers[c])| > |Received(w.peers[c])|
        || (w.peers[c].held.None? && t.peers[c].held.Some? && |t.peers[c].queue| < |w.peers[c].queue|)
        || (w.peers[c].held.Some? && t.peers[c].held.None?))
  }

  /** A request for a non-empty file from its beginning, on a connection whose two ends are alive,
      and which is not complete on the client's side.  The server's end may be closed once all has
      been accepted. */
  ghost predicate UnderWay(disk: Disk, w: World, c: ClientId) {
    && c in w.server.clients && c in w.peers
    && var cl, p := w.server.clients[c], w.peers[c];
    && cl.requested && !cl.waitingClose && cl.reqPos == 0 && cl.path in disk && |disk[cl.path]| > 0
    && (cl.live || cl.accepted == ReplyHead(0, |disk[cl.path]|) + disk[cl.path])
    && p.live && p.writer != Failed && p.writer != WriterState.Complete
  }

  /** Some step can be taken that advances the transfer; `safely`, one that does not report an orphaned
      failure and so leads to a crash of the file thread. */
  ghost predicate CanAdvance(disk: Disk, http: Http, w: World, c: ClientId, safely: bool)
    requires c in w.server.clients && c in w.peers
  {
    exists step ::
      && CanStep(w, step) && Advances(w, StepWorld(disk, http, w, step), c)
      && (safely && step.Serve? ==> !Orphan(w.server, step.e))
  }

  /** The transfer has come to a standstill: the client has nothing left to receive, to take or to
      write, and the server nothing to send, to report or to execute for it. */
  ghost predicate Standstill(w: World, c: ClientId)
    requires c in w.server.clients && c in w.peers
  {
    var s, cl, p := w.server, w.server.clients[c], w.peers[c];
    && p.queue == [] && p.held.None? && Received(p) == cl.accepted
    && cl.live && cl.deq == [] && PostedOf(s.posted, c) == [] && (OpsOf(s.ops, c) == [] || s.thread.faulted)
  }

  /** A server event that takes the front of a queue the client is in, or sends for it. */
  lemma EventAdvances(disk: Disk, http: Http, w: World, e: Event, c: ClientId, safely: bool)
    requires c in w.server.clients && c in w.peers && Enabled(w.server, e) && !e.Connect?
    requires safely ==> !Orphan(w.server, e)
    requires var t := Next(disk, w.server, e);
      && c in t.clients
      && (|| (OpsOf(w.server.ops, c) != [] && t.ops == w.server.ops[1..])
          || (PostedOf(w.server.posted, c) != [] && t.posted == w.server.posted[1..])
          || |t.clients[c].accepted| > |w.server.clients[c].accepted|)
    ensures CanAdvance(disk, http, w, c, safely)
  {
    hide Next, Enabled, OpsOf, PostedOf, Orphan;
    assert Advances(w, StepWorld(disk, http, w, Serve(e)), c);
    assert CanStep(w, Serve(e));
  }

  lemma WorkAdvances(disk: Disk, http: Http, w: World, c: ClientId, safely: bool)
    requires WorldInv(disk, http, w) && c in w.peers && OpsOf(w.server.ops, c) != [] && !w.server.thread.faulted
    ensures CanAdvance(disk, http, w, c, safely)
  {
    hide CanAdvance, ClientInv, LinkInv, Exec, OpsOf, PostedOf, Registered;
    assert OpsOf([], c) == [] by { NothingOf(c); }
    ClientsNeverForgotten(disk, w.server, Work(1));
    EventAdvances(disk, http, w, Work(1), c, safely);
  }

  lemma NothingOf(c: ClientId)
    ensures OpsOf([], c) == [] && PostedOf([], c) == []
  {
  }

  lemma FrontIsKnown(disk: Disk, s: Server)
    requires Good(disk, s) && s.posted != []
    ensures s.posted[0].owner in s.clients
  {
    PostedOfHead(s.posted, s.posted[0].owner);
    hide OpsOf, PostedOf, Registered, ClientInv, HandlesInv;
  }

  lemma DeliveryAdvances(disk: Disk, http: Http, w: World, c: ClientId, safely: bool)
    requires WorldInv(disk, http, w) && c in w.peers && PostedOf(w.server.posted, c) != []
    requires safely ==> !Orphan(w.server, Deliver([]))
    ensures CanAdvance(disk, http, w, c, safely)
  {
    NothingOf(c);
    hide CanAdvance, LinkInv, HandlePosted, OpsOf, PostedOf, PushOps, Good;
    FrontIsKnown(disk, w.server);
    ClientsNeverForgotten(disk, w.server, Deliver([]));
    EventAdvances(disk, http, w, Deliver([]), c, safely);
  }

  lemma OneByteGoes(cl: Client)
    requires cl.live && cl.deq != []
    ensures |Sent(cl, [1]).accepted| > |cl.accepted|
  {
    var f := Flush(true, cl.deq, [1]);
    assert SendResult(true, [1], |cl.deq[0].Tail()|) == 1;
    assert |f.sent| >= 1;
  }

  lemma WritableAdvances(disk: Disk, http: Http, w: World, c: ClientId, safely: bool)
    requires c in w.peers && c in w.server.clients && w.server.clients[c].live && w.server.clients[c].deq != []
    ensures CanAdvance(disk, http, w, c, safely)
  {
    var cl := w.server.clients[c];
    OneByteGoes(cl);
    hide Sent, PushOps, Continue, CloseClient, PlanLeft;
    FinishersSendNothing(c, Sent(cl, [1]), PlanLeft(cl, [1]));
    assert OnWritable(c, cl, [1]).cl.accepted == Sent(cl, [1]).accepted;
    hide OnWritable, CanAdvance;
    EventAdvances(disk, http, w, Writable(c, [1]), c, safely);
  }

  lemma NotStranded(http: Http, cl: Client, p: Peer, size: nat, body: seq<byte>)
    requires LinkInv(http, cl, p) && HttpDecodes(http) && size > 0 && cl.accepted <= ReplyHead(0, size) + body
    ensures !Stranded(p)
  {
    var stream := ReplyHead(0, size) + body;
    ReplyHeadEnds(0, size);
    assert http(ReplyHead(0, size)) == Some(size);
    hide ReplyHead, NoBlank, HeadEnds;
    if Stranded(p) {
      assert p.lines <= stream;
      HeadIsAlone(p.lines, ReplyHead(0, size), stream);
    }
  }

  lemma ByteIsReceived(http: Http, p: Peer, b: byte)
    requires PeerInv(http, p) && p.live && !Stranded(p) && (p.fileSize == 0 ==> |p.buf| < LINE_BUFFER)
    ensures Want(p) > 0 && |Received(OnChunk(http, p, [b]))| == |Received(p)| + 1
  {
    hide HeadEnds, NoBlank, Pending;
    if p.fileSize == 0 {
      HeadByteKeeps(http, p, b);
    } else {
      BodyChunkKeeps(http, p, [b]);
    }
    hide OnHeadByte, OnBodyChunk, Received;
  }

  lemma ReceiveAdvances(disk: Disk, http: Http, w: World, c: ClientId, safely: bool)
    requires c in w.server.clients && c in w.peers && LinkInv(http, w.server.clients[c], w.peers[c])
    requires w.peers[c].live && !Stranded(w.peers[c])
    requires |Received(w.peers[c])| < |w.server.clients[c].accepted|
    ensures CanAdvance(disk, http, w, c, safely)
  {
    var cl, p := w.server.clients[c], w.peers[c];
    var at := |Received(p)|;
    hide PeerInv, Received, Stranded;
    ByteIsReceived(http, p, cl.accepted[at]);
    assert cl.accepted[at..at + 1] == [cl.accepted[at]];
    hide OnChunk, Received, LinkInv, CanAdvance, Want;
    ChunkAdvances(disk, http, w, c, safely);
  }

  lemma ChunkAdvances(disk: Disk, http: Http, w: World, c: ClientId, safely: bool)
    requires CanStep(w, Receive(c, 1))
    requires var p := w.peers[c];
             var at := |Received(p)|;
             |Received(OnChunk(http, p, w.server.clients[c].accepted[at..at + 1]))| == at + 1
    ensures CanAdvance(disk, http, w, c, safely)
  {
    hide OnChunk, Received, Want;
    assert Advances(w, StepWorld(disk, http, w, Receive(c, 1)), c);
  }

  lemma WriterIsRunning(http: Http, p: Peer)
    requires PeerInv(http, p) && p.live && p.writer != Failed && p.writer != WriterState.Complete
    requires p.queue != [] || p.held.Some?
    ensures p.writer == Running && p.writePos <= |p.disk|
  {
    hide HeadEnds, NoBlank, Pending;
  }

  lemma TakeAdvances(disk: Disk, http: Http, w: World, c: ClientId, safely: bool)
    requires CanStep(w, Take(c)) && c in w.server.clients
    ensures CanAdvance(disk, http, w, c, safely)
  {
    assert Advances(w, StepWorld(disk, http, w, Take(c)), c);
  }

  lemma WriteAdvances(disk: Disk, http: Http, w: World, c: ClientId, n: nat, safely: bool)
    requires CanStep(w, Write(c, n)) && c in w.server.clients
    requires w.peers[c].held.value.Data? ==> n >= |w.peers[c].held.value.bytes|
    ensures CanAdvance(disk, http, w, c, safely)
  {
    hide WriteAt;
    assert Advances(w, StepWorld(disk, http, w, Write(c, n)), c);
  }

  /** While the receiver lives, what is queued can be taken, and what is held can be written. */
  lemma WriterAdvances(disk: Disk, http: Http, w: World, c: ClientId, safely: bool)
    requires c in w.server.clients && c in w.peers && PeerInv(http, w.peers[c]) && w.peers[c].live
    requires w.peers[c].writer != Failed && w.peers[c].writer != WriterState.Complete
    requires w.peers[c].queue != [] || w.peers[c].held.Some?
    ensures CanAdvance(disk, http, w, c, safely)
  {
    var p := w.peers[c];
    hide PeerInv, CanAdvance;
    WriterIsRunning(http, p);
    if p.held.Some? {
      WriteAdvances(disk, http, w, c, if p.held.value.Data? then |p.held.value.bytes| else 0, safely);
    } else {
      TakeAdvances(disk, http, w, c, safely);
    }
  }

  /** Before the open is reported nothing has been accepted; afterwards it is the head and a part of
      the file. */
  lemma AcceptedSoFar(disk: Disk, s: Server, c: ClientId)
    requires Good(disk, s) && c in s.clients
    requires var cl := s.clients[c]; cl.requested && !cl.waitingClose && cl.reqPos == 0 && cl.path in disk
    ensures var cl := s.clients[c]; cl.accepted <= ReplyHead(0, |disk[cl.path]|) + disk[cl.path]
  {
    var cl := s.clients[c];
    if cl.started {
      AcceptedIsPrefix(disk, s, c);
    } else {
      assert ClientInv(disk, c, ViewOf(s, c));
    }
  }

  lemma StepExists(disk: Disk, http: Http, w: World, c: ClientId, safely: bool)
    requires WorldInv(disk, http, w) && HttpDecodes(http) && UnderWay(disk, w, c) && !Standstill(w, c)
    requires safely ==> !Orphan(w.server, Deliver([]))
    ensures CanAdvance(disk, http, w, c, safely)
  {
    var s, cl, p := w.server, w.server.clients[c], w.peers[c];
    var file := disk[cl.path];
    AcceptedSoFar(disk, s, c);
    assert LinkInv(http, cl, p) && PeerInv(http, p);
    hide Good, CanAdvance, PeerInv, ReplyHead, Orphan;
    NotStranded(http, cl, p, |file|, file);
    if p.queue != [] || p.held.Some? {
      WriterAdvances(disk, http, w, c, safely);
    } else if |Received(p)| < |cl.accepted| {
      ReceiveAdvances(disk, http, w, c, safely);
    } else if cl.live {
      assert Received(p) == cl.accepted;
      if OpsOf(s.ops, c) != [] && !s.thread.faulted {
        WorkAdvances(disk, http, w, c, safely);
      } else if PostedOf(s.posted, c) != [] {
        DeliveryAdvances(disk, http, w, c, safely);
      } else {
        WritableAdvances(disk, http, w, c, safely);
      }
    } else {
      assert Received(p) == cl.accepted;
      AllSent(disk, http, w, c);
    }
  }

  /** At a standstill no event of the server sends anything for the client, and none takes an
      operation of its off the queue. */
  lemma NothingHappens(disk: Disk, http: Http, w: World, e: Event, c: ClientId)
    requires WorldInv(disk, http, w) && UnderWay(disk, w, c) && Standstill(w, c)
    ensures var s, t := w.server, Next(disk, w.server, e);
      && c in t.clients && t.clients[c].accepted == s.clients[c].accepted
      && (OpsOf(s.ops, c) != [] ==> t.ops != s.ops[1..])
  {
    var s := w.server;
    NothingOf(c);
    assert OpsOf(s.ops, c) != [] ==> s.ops != [] && s.thread.faulted;
    QuietEvent(disk, s, e, c);
  }

  lemma QuietEvent(disk: Disk, s: Server, e: Event, c: ClientId)
    requires c in s.clients && s.clients[c].requested && s.clients[c].deq == [] && PostedOf(s.posted, c) == []
    ensures var t := Next(disk, s, e);
      && c in t.clients && t.clients[c].accepted == s.clients[c].accepted
      && (s.thread.faulted ==> s.ops <= t.ops)
  {
    hide PostedOf, Exec, Handled, Apply;
    if Enabled(s, e) && !e.Connect? && !e.Work? {
      OwnEventSendsNothing(s, e, c);
      AppliesAll(Before(s, e), Actor(s, e), Handled(s, e));
    }
  }

  lemma AppliesAll(s: Server, c: ClientId, o: Outcome)
    ensures Apply(s, c, o).clients == s.clients[c := o.cl] && s.ops <= Apply(s, c, o).ops
  {
    hide PushOps;
  }

  lemma OwnEventSendsNothing(s: Server, e: Event, c: ClientId)
    requires Enabled(s, e) && !e.Connect? && !e.Work? && c in s.clients
    requires s.clients[c].requested && s.clients[c].deq == [] && PostedOf(s.posted, c) == []
    ensures Actor(s, e) == c ==> Handled(s, e).cl.accepted == s.clients[c].accepted
  {
    var cl := s.clients[c];
    if Actor(s, e) == c {
      match e
      case Writable(_, plan) =>
        assert cl.accepted + [] == cl.accepted;
        assert Sent(cl, plan) == cl;
        hide Sent, Continue, CloseClient, PlanLeft;
        FinishersSendNothing(c, cl, PlanLeft(cl, plan));
      case Broken(_) => FinishersSendNothing(c, cl, []);
      case Deliver(_) =>
        PostedOfHead(s.posted, c);
        assert false;
    }
  }

  /** And no step of the client side does anything but end its connection. */
  lemma NothingArrives(http: Http, w: World, c: ClientId, step: Step)
    requires c in w.peers && c in w.server.clients && CanStep(w, step) && !step.Serve? && step.c == c
    requires w.peers[c].queue == [] && w.peers[c].held.None?
    requires |Received(w.peers[c])| == |w.server.clients[c].accepted|
    ensures Received(StepPeer(http, w, step)) == Received(w.peers[c]) && StepPeer(http, w, step).held.None?
  {
    hide OnChunk, Stranded, Want;
    match step
    case Receive(_, n) => assert false;
    case Take(_) => assert false;
    case Write(_, _) => assert false;
    case _ =>
  }

  lemma StandstillStays(disk: Disk, http: Http, w: World, c: ClientId, step: Step)
    requires WorldInv(disk, http, w) && UnderWay(disk, w, c) && Standstill(w, c) && CanStep(w, step)
    ensures !Advances(w, StepWorld(disk, http, w, step), c)
  {
    if step.Serve? {
      NothingHappens(disk, http, w, step.e, c);
      hide WorldInv, OpsOf, PostedOf, Received, CanStep, StepWorld, Advances, Next;
      QuietServe(disk, http, w, step.e, c);
    } else {
      NothingOf(c);
      hide WorldInv, OpsOf, PostedOf, Received, CanStep, StepWorld, Advances;
      if step.c == c { NothingArrives(http, w, c, step); }
      QuietPeers(disk, http, w, step, c);
    }
  }

  lemma QuietPeers(disk: Disk, http: Http, w: World, step: Step, c: ClientId)
    requires c in w.server.clients && c in w.peers && CanStep(w, step) && !step.Serve?
    requires OpsOf(w.server.ops, c) != [] ==> w.server.ops != []
    requires PostedOf(w.server.posted, c) == [] && w.peers[c].held.None?
    requires step.c == c ==>
      |Received(StepPeer(http, w, step))| == |Received(w.peers[c])| && StepPeer(http, w, step).held.None?
    ensures !Advances(w, StepWorld(disk, http, w, step), c)
  {
    hide OpsOf, PostedOf, Received, CanStep, StepPeer;
  }

  lemma QuietServe(disk: Disk, http: Http, w: World, e: Event, c: ClientId)
    requires c in w.server.clients && c in w.peers && CanStep(w, Serve(e)) && PostedOf(w.server.posted, c) == []
    requires var s, t := w.server, Next(disk, w.server, e);
      && c in t.clients && t.clients[c].accepted == s.clients[c].accepted
      && (OpsOf(s.ops, c) != [] ==> t.ops != s.ops[1..])
    ensures !Advances(w, StepWorld(disk, http, w, Serve(e)), c)
  {
    assert e.Connect? ==> e.c != c;
    hide OpsOf, PostedOf, Next, Received, CanStep, Enabled;
  }

  /** In every reachable world, a transfer that is under way can be advanced, by the file thread, a
      delivery, the transport in either direction or the writer, exactly unless it has come to a
      standstill; and without a step that crashes the file thread, unless the completion to be
      reported next is an orphaned failure. */
  lemma StuckExactlyAtStandstill(disk: Disk, http: Http, steps: seq<Step>, c: ClientId)
    requires HttpDecodes(http) && UnderWay(disk, RunWorld(disk, http, START, steps), c)
    ensures var w := RunWorld(disk, http, START, steps);
      && (CanAdvance(disk, http, w, c, false) <==> !Standstill(w, c))
      && (!Standstill(w, c) && !Orphan(w.server, Deliver([])) ==> CanAdvance(disk, http, w, c, true))
  {
    var w := RunWorld(disk, http, START, steps);
    StartIsFine(disk, http);
    RunWorldKeeps(disk, http, START, steps);
    hide RunWorld, WorldInv, Standstill, UnderWay, CanStep, Advances, StepWorld, Orphan;
    if Standstill(w, c) {
      forall step | CanStep(w, step) ensures !Advances(w, StepWorld(disk, http, w, step), c) {
        StandstillStays(disk, http, w, c, step);
      }
    } else {
      hide CanAdvance;
      StepExists(disk, http, w, c, false);
      if !Orphan(w.server, Deliver([])) { StepExists(disk, http, w, c, true); }
    }
  }

  // Why a transfer comes to a standstill.

  /** The server's part of a run. */
  function EventsOf(steps: seq<Step>): seq<Event> {
    if steps == [] then []
    else (if steps[0].Serve? then [steps[0].e] else []) + EventsOf(steps[1..])
  }

  lemma {:induction false} ServerRuns(disk: Disk, http: Http, w: World, steps: seq<Step>)
    ensures RunWorld(disk, http, w, steps).server == Run(disk, w.server, EventsOf(steps))
    decreases |steps|
  {
    if steps != [] {
      var rest := EventsOf(steps[1..]);
      ServerRuns(disk, http, StepWorld(disk, http, w, steps[0]), steps[1..]);
      if steps[0].Serve? {
        assert ([steps[0].e] + rest)[1..] == rest;
      } else {
        assert [] + rest == rest;
      }
      hide Next, StepPeer;
    }
  }

  /** A transfer whose two ends have done all they have to do is at a standstill exactly when the file
      thread has crashed on a null handle, or the full queue has refused the connection's open or the
      read it waits for. */
  lemma StandstillMeans(disk: Disk, http: Http, steps: seq<Step>, c: ClientId)
    requires UnderWay(disk, RunWorld(disk, http, START, steps), c)
    requires var w := RunWorld(disk, http, START, steps);
             var cl, p := w.server.clients[c], w.peers[c];
      && p.queue == [] && p.held.None? && Received(p) == cl.accepted
      && cl.live && cl.deq == [] && PostedOf(w.server.posted, c) == []
    ensures var w := RunWorld(disk, http, START, steps);
      Standstill(w, c) <==>
        w.server.thread.faulted || WaitsForRefused(disk, EventsOf(steps), c, w.server.clients[c])
  {
    var es := EventsOf(steps);
    ServerRuns(disk, http, START, steps);
    var s := RunWorld(disk, http, START, steps).server;
    assert s == Reached(disk, es);
    hide RunWorld, Run, EventsOf, WaitsForRefused, OpsOf, PostedOf;
    StallsExactlyWhen(disk, es, c);
    FileIsNotEmpty(disk, es, c);
  }

  lemma FileIsNotEmpty(disk: Disk, es: seq<Event>, c: ClientId)
    requires c in Reached(disk, es).clients
    ensures var cl := Reached(disk, es).clients[c]; cl.started ==> cl.path in disk && cl.fileSize == |disk[cl.path]|
  {
    StreamIsHeadAndFile(disk, es, c);
  }
}
