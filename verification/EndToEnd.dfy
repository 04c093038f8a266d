/** The file server and its downloading clients together.  A client's receiver sees the bytes the
    server's `rt_send` accepted for its connection, in order, at any pace and in any chunks. */
module EndToEnd {
  import opened Streams
  import opened Transport
  import opened HttpText
  import opened DownloadClient
  import opened FileThread
  import opened DownloadInvariant
  import opened DownloadSteps
  import opened FileServer
  import opened Downloader

  datatype World = World(server: Server, peers: map<ClientId, Peer>)

  datatype Step =
    | Serve(e: Event)
    | Receive(c: ClientId, n: nat)
    | Lose(c: ClientId)              // rt_recv reports the end of the connection
    | Break(c: ClientId)             // the error event
    | Take(c: ClientId)
    | Write(c: ClientId, n: nat)

  predicate CanStep(w: World, step: Step) {
    match step
    case Serve(e) => Enabled(w.server, e)
    case Receive(c, n) =>
      c in w.peers && c in w.server.clients && w.peers[c].live && !Stranded(w.peers[c])
      && 0 < n <= Want(w.peers[c]) && |Received(w.peers[c])| + n <= |w.server.clients[c].accepted|
    case Lose(c) => c in w.peers && w.peers[c].live
    case Break(c) => c in w.peers && w.peers[c].live
    case Take(c) => c in w.peers && w.peers[c].writer == Running && w.peers[c].held.None? && w.peers[c].queue != []
    case Write(c, _) =>
      c in w.peers && w.peers[c].writer == Running && w.peers[c].held.Some? && w.peers[c].writePos <= |w.peers[c].disk|
  }

  function StepPeer(http: Http, w: World, step: Step): Peer
    requires CanStep(w, step) && !step.Serve?
  {
    var p := w.peers[step.c];
    match step
    case Receive(c, n) =>
      var at := |Received(p)|;
      OnChunk(http, p, w.server.clients[c].accepted[at..at + n])
    case Lose(_) => OnGone(p)
    case Break(_) => OnError(p)
    case Take(_) => WriterTakes(p)
    case Write(_, n) => WriterWrites(p, n)
  }

  function StepWorld(disk: Disk, http: Http, w: World, step: Step): World {
    if !CanStep(w, step) then w
    else
      match step
      case Serve(e) =>
        World(Next(disk, w.server, e), if e.Connect? then w.peers[e.c := NEW_PEER] else w.peers)
      case _ => w.(peers := w.peers[step.c := StepPeer(http, w, step)])
  }

  function RunWorld(disk: Disk, http: Http, w: World, steps: seq<Step>): World
    decreases |steps|
  {
    if steps == [] then w else RunWorld(disk, http, StepWorld(disk, http, w, steps[0]), steps[1..])
  }

  const START := World(INITIAL, map[])

  /** A client's receiver has seen a prefix of what the server sent it. */
  ghost predicate LinkInv(http: Http, cl: Client, p: Peer) {
    && PeerInv(http, p)
    && Received(p) <= cl.accepted
    && (p.live && p.fileSize == 0 ==> |p.buf| < LINE_BUFFER)
  }

  ghost predicate WorldInv(disk: Disk, http: Http, w: World) {
    && Good(disk, w.server)
    && w.peers.Keys == w.server.clients.Keys
    && forall c :: c in w.peers ==> LinkInv(http, w.server.clients[c], w.peers[c])
  }

  // Sent bytes are never taken back.

  lemma FinishersSendNothing(c: ClientId, cl: Client, plan: seq<int>)
    ensures Continue(c, cl, plan).cl.accepted == cl.accepted
    ensures CloseClient(c, cl, plan).cl.accepted == cl.accepted
    ensures StartRead(c, cl, plan).cl.accepted == cl.accepted
  {
  }

  lemma RefuseOnlySends(c: ClientId, cl: Client, reply: Block, plan: seq<int>)
    ensures cl.accepted <= Refuse(c, cl, reply, plan).cl.accepted
  {
    hide Flush;
  }

  lemma PostedOnlySends(c: ClientId, cl: Client, posted: Posted, plan: seq<int>)
    ensures cl.accepted <= HandlePosted(posted, cl, plan).cl.accepted
  {
    hide Flush, Continue, CloseClient, StartRead, Refuse, ReplyHead, NotFoundReply;
    match posted
    case OpenDone(d, handle, size) =>
      RefuseOnlySends(d, cl, NotFoundReply(), plan);
      if handle.Some? {
        var head := ReplyHead(cl.reqPos, size);
        var queued := Push(cl.(handle := handle, fileSize := size, started := true, head := head), head);
        FinishersSendNothing(d, Sent(queued, plan), PlanLeft(queued, plan));
      }
    case ReadDone(d, data) =>
      FinishersSendNothing(d, cl.(reading := false, handle := None), plan);
      if data.Some? {
        var queued := Push(cl.(reading := false), data.value);
        var sent := Sent(queued, plan);
        FinishersSendNothing(d, sent.(curPos := sent.curPos + |data.value|), PlanLeft(queued, plan));
      }
  }

  lemma WritableOnlySends(c: ClientId, cl: Client, plan: seq<int>)
    ensures cl.accepted <= OnWritable(c, cl, plan).cl.accepted
  {
    hide Flush, Continue, CloseClient;
    FinishersSendNothing(c, Sent(cl, plan), PlanLeft(cl, plan));
  }

  lemma AcceptedGrows(disk: Disk, s: Server, e: Event, c: ClientId)
    requires c in s.clients
    ensures c in Next(disk, s, e).clients && s.clients[c].accepted <= Next(disk, s, e).clients[c].accepted
  {
    hide OnWritable, HandlePosted, Refuse, Exec, PushOps, BadRequestReply;
    if Enabled(s, e) {
      match e
      case BadRequest(d, message, plan) =>
        RefuseOnlySends(d, s.clients[d].(requested := true), BadRequestReply(message), plan);
      case Writable(d, plan) => WritableOnlySends(d, s.clients[d], plan);
      case Deliver(plan) => PostedOnlySends(s.posted[0].owner, s.clients[s.posted[0].owner], s.posted[0], plan);
      case _ =>
    }
  }

  lemma ClientsNeverForgotten(disk: Disk, s: Server, e: Event)
    ensures Next(disk, s, e).clients.Keys == s.clients.Keys + (if e.Connect? then {e.c} else {})
  {
    hide OnRequest, OnBadRequest, OnWritable, CloseClient, HandlePosted, Exec, PushOps;
  }

  lemma ServeKeeps(disk: Disk, http: Http, w: World, e: Event)
    requires WorldInv(disk, http, w) && Enabled(w.server, e)
    ensures WorldInv(disk, http, StepWorld(disk, http, w, Serve(e)))
  {
    hide Next, Good, LinkInv;
    NextKeeps(disk, w.server, e);
    ClientsNeverForgotten(disk, w.server, e);
    var server := Next(disk, w.server, e);
    var t := StepWorld(disk, http, w, Serve(e));
    assert t.server == server && t.peers == if e.Connect? then w.peers[e.c := NEW_PEER] else w.peers;
    assert e.Connect? ==> e.c !in w.server.clients;
    hide StepWorld, Enabled;
    forall c | c in t.peers ensures LinkInv(http, server.clients[c], t.peers[c]) {
      if c in w.peers {
        AcceptedGrows(disk, w.server, e, c);
        LinkGrows(http, w.server.clients[c], server.clients[c], w.peers[c]);
      } else {
        NewPeerIsFine(http, server.clients[c]);
      }
    }
  }

  lemma LinkGrows(http: Http, cl: Client, more: Client, p: Peer)
    requires LinkInv(http, cl, p) && cl.accepted <= more.accepted
    ensures LinkInv(http, more, p)
  {
  }

  lemma NewPeerIsFine(http: Http, cl: Client)
    ensures LinkInv(http, cl, NEW_PEER)
  {
    assert Received(NEW_PEER) == [];
  }

  lemma ReceiveKeeps(http: Http, cl: Client, p: Peer, n: nat)
    requires LinkInv(http, cl, p) && p.live && !Stranded(p)
    requires 0 < n <= Want(p) && |Received(p)| + n <= |cl.accepted|
    ensures LinkInv(http, cl, OnChunk(http, p, cl.accepted[|Received(p)|..|Received(p)| + n]))
  {
    hide HeadInv, BodyInv;
    var at := |Received(p)|;
    var chunk := cl.accepted[at..at + n];
    if p.fileSize == 0 {
      HeadByteKeeps(http, p, chunk[0]);
      assert [chunk[0]] == chunk;
    } else {
      BodyChunkKeeps(http, p, chunk);
    }
    assert Received(p) + chunk == cl.accepted[..at + n];
  }

  lemma PeerKeeps(disk: Disk, http: Http, w: World, step: Step)
    requires WorldInv(disk, http, w) && CanStep(w, step) && !step.Serve?
    ensures LinkInv(http, w.server.clients[step.c], StepPeer(http, w, step))
  {
    hide Good, HeadInv, BodyInv, OnChunk, WriterWrites;
    var c := step.c;
    var p := w.peers[c];
    match step
    case Receive(_, n) => ReceiveKeeps(http, w.server.clients[c], p, n);
    case Lose(_) => GoneKeeps(http, p);
    case Break(_) => ErrorKeeps(http, p);
    case Take(_) => TakesKeeps(http, p);
    case Write(_, n) =>
      WritesKeeps(http, p, n);
      WritesReceiveNothing(p, n);
  }

  lemma WritesReceiveNothing(p: Peer, n: nat)
    requires p.writer == Running && p.held.Some? && p.writePos <= |p.disk|
    ensures var q := WriterWrites(p, n);
            Received(q) == Received(p) && q.live == p.live && q.fileSize == p.fileSize && q.buf == p.buf
  {
  }

  lemma StepKeeps(disk: Disk, http: Http, w: World, step: Step)
    requires WorldInv(disk, http, w)
    ensures WorldInv(disk, http, StepWorld(disk, http, w, step))
  {
    hide Good, LinkInv, StepPeer;
    if CanStep(w, step) {
      if step.Serve? {
        ServeKeeps(disk, http, w, step.e);
      } else {
        PeerKeeps(disk, http, w, step);
      }
    }
  }

  lemma {:induction false} RunWorldKeeps(disk: Disk, http: Http, w: World, steps: seq<Step>)
    requires WorldInv(disk, http, w)
    ensures WorldInv(disk, http, RunWorld(disk, http, w, steps))
    decreases |steps|
  {
    hide WorldInv, StepWorld;
    if steps != [] {
      StepKeeps(disk, http, w, steps[0]);
      RunWorldKeeps(disk, http, StepWorld(disk, http, w, steps[0]), steps[1..]);
    }
  }

  // The transfer as a whole.

  /** The HTTP library decodes the server's own success heads to the size they announce. */
  ghost predicate HttpDecodes(http: Http) {
    forall size: nat :: size > 0 ==> http(ReplyHead(0, size)) == Some(size)
  }

  /** A decoder that reads the announced length of a success head in base ten. */
  function ReadLength(head: seq<byte>): Option<nat> {
    var before := Ascii("HTTP/1.1 200 OK") + CRLF + Ascii("Content-Length: ");
    var behind := CRLF + (Ascii("Server: http-utp server") + CRLF + CRLF);
    if before <= head && |before| + |behind| <= |head| && head[|head| - |behind|..] == behind then
      var length := Reading(head[|before|..|head| - |behind|]);
      if length >= 0 then Some(length) else None
    else None
  }

  /** Such a decoder exists: reading the digits in base ten is one. */
  lemma HttpCanDecode()
    ensures HttpDecodes(ReadLength)
  {
    forall size: nat | size > 0 ensures ReadLength(ReplyHead(0, size)) == Some(size) {
      ReadsReply(size);
    }
  }

  lemma ReadsReply(size: nat)
    ensures ReadLength(ReplyHead(0, size)) == Some(size)
  {
    var head := ReplyHead(0, size);
    var before := Ascii("HTTP/1.1 200 OK") + CRLF + Ascii("Content-Length: ");
    var behind := CRLF + (Ascii("Server: http-utp server") + CRLF + CRLF);
    ReplyHeadShape(size);
    DecimalReads(size);
    hide ReplyHead, Decimal, Ascii;
    assert head == before + (Decimal(size) + behind);
    BetweenTwo(before, Decimal(size), behind);
  }

  lemma BetweenTwo(before: seq<byte>, mid: seq<byte>, behind: seq<byte>)
    ensures var all := before + (mid + behind);
      && before <= all && all[|before|..|all| - |behind|] == mid && all[|all| - |behind|..] == behind
  {
  }

  /** A receiver on a stream that begins with a head reads exactly that head. */
  lemma HeadIsTheReply(http: Http, cl: Client, p: Peer, size: nat, body: seq<byte>)
    requires LinkInv(http, cl, p) && p.fileSize > 0
    requires cl.accepted <= ReplyHead(0, size) + body
    ensures p.lines == ReplyHead(0, size) && p.body <= body
  {
    var stream := ReplyHead(0, size) + body;
    var r := Received(p);
    ReplyHeadEnds(0, size);
    HeadEndsInPrefix(p.lines, stream, |p.lines|);
    HeadEndsInPrefix(ReplyHead(0, size), stream, |ReplyHead(0, size)|);
    HeadEndsOnce(stream, |p.lines|, |ReplyHead(0, size)|);
    hide ReplyHead, HeadEnds;
    assert p.lines == stream[..|p.lines|];
    assert p.body == r[|p.lines|..] && r == stream[..|r|];
  }

  /** End to end.  For every interleaving of server events, file-thread work, transport answers,
      receiver reads and writer steps, and any number of other clients: what a client has on disk is
      a prefix of the file it asked for, and a writer that declares the download complete has
      written the whole file. */
  lemma DiskIsTheFile(disk: Disk, http: Http, steps: seq<Step>, c: ClientId)
    requires HttpDecodes(http)
    requires c in RunWorld(disk, http, START, steps).peers
    ensures var w := RunWorld(disk, http, START, steps);
            && c in w.server.clients
            && var cl, p := w.server.clients[c], w.peers[c];
      cl.started && cl.reqPos == 0 && cl.fileSize > 0 ==>
        && cl.path in disk
        && p.disk <= disk[cl.path]
        && (p.writer == Complete ==> p.disk == disk[cl.path])
        && (p.fileSize > 0 ==>
              && p.fileSize == |disk[cl.path]|
              && p.body <= disk[cl.path]
              && (p.writer == Ended ==> p.disk + p.buf == p.body))
  {
    StartIsFine(disk, http);
    RunWorldKeeps(disk, http, START, steps);
    var w := RunWorld(disk, http, START, steps);
    var cl, p := w.server.clients[c], w.peers[c];
    if cl.started && cl.reqPos == 0 && cl.fileSize > 0 {
      LinkMeansPrefix(disk, http, w, c);
    }
  }

  /** Between receiver and writer nothing is lost or reordered: at every moment of every run, until
      a write fails, the body bytes received are the disk, the item the writer holds, the items
      queued and the receive buffer. */
  lemma NothingIsLostBetweenThreads(disk: Disk, http: Http, steps: seq<Step>, c: ClientId)
    requires c in RunWorld(disk, http, START, steps).peers
    ensures var p := RunWorld(disk, http, START, steps).peers[c];
      p.fileSize > 0 ==>
        && p.disk <= p.body
        && (p.writer != Failed ==> p.body == p.disk + HeldBytes(p) + Pending(p.queue) + p.buf)
        && (p.writer == Ended ==> p.body == p.disk + p.buf)
  {
    StartIsFine(disk, http);
    RunWorldKeeps(disk, http, START, steps);
    hide RunWorld, Pending, HeadEnds, Good;
    var w := RunWorld(disk, http, START, steps);
    var p := w.peers[c];
    assert LinkInv(http, w.server.clients[c], p);
    if p.fileSize > 0 && p.writer == Ended {
      EndMarkMeansWritten(http, p);
    }
  }

  lemma StartIsFine(disk: Disk, http: Http)
    ensures WorldInv(disk, http, START)
  {
    InitialIsGood(disk);
  }

  lemma AcceptedIsPrefix(disk: Disk, s: Server, c: ClientId)
    requires Good(disk, s) && c in s.clients && s.clients[c].started && s.clients[c].reqPos == 0
    ensures var cl := s.clients[c];
      && cl.path in disk && cl.fileSize == |disk[cl.path]|
      && cl.accepted <= ReplyHead(0, |disk[cl.path]|) + disk[cl.path]
  {
    var cl := s.clients[c];
    assert ClientInv(disk, c, ViewOf(s, c));
    var file := disk[cl.path];
    hide ReplyHead, Unsent, Good, ClientInv;
    assert file == Body(file, 0, cl.curPos) + file[cl.curPos..];
    PrefixOfWhole(cl.accepted, Unsent(cl.deq), ReplyHead(0, |file|), Body(file, 0, cl.curPos), file[cl.curPos..]);
  }

  lemma PrefixOfWhole(sent: seq<byte>, queued: seq<byte>, head: seq<byte>, part: seq<byte>, rest: seq<byte>)
    requires sent + queued == head + part
    ensures sent <= head + (part + rest)
  {
    assert sent + queued + rest == head + (part + rest);
  }

  lemma LinkMeansPrefix(disk: Disk, http: Http, w: World, c: ClientId)
    requires WorldInv(disk, http, w) && HttpDecodes(http) && c in w.peers
    requires var cl := w.server.clients[c]; cl.started && cl.reqPos == 0 && cl.fileSize > 0
    ensures var cl, p := w.server.clients[c], w.peers[c];
      && cl.path in disk
      && p.disk <= disk[cl.path]
      && (p.writer == Complete ==> p.disk == disk[cl.path])
      && (p.fileSize > 0 ==>
            && p.fileSize == |disk[cl.path]|
            && p.body <= disk[cl.path]
            && (p.writer == Ended ==> p.disk + p.buf == p.body))
  {
    AcceptedIsPrefix(disk, w.server, c);
    hide Good, ReplyHead;
    var cl, p := w.server.clients[c], w.peers[c];
    assert LinkInv(http, cl, p);
    if p.fileSize > 0 {
      HeadIsTheReply(http, cl, p, |disk[cl.path]|, disk[cl.path]);
      CompleteMeansWhole(http, p);
      if p.writer == Ended { EndMarkMeansWritten(http, p); }
    }
  }

  /** A receiver that has been given all of the reply head knows the size: the head was found, it
      was a success and it announced something. */
  lemma HeadIsKnown(http: Http, p: Peer, size: nat)
    requires PeerInv(http, p) && HttpDecodes(http) && size > 0 && ReplyHead(0, size) <= Received(p)
    ensures p.fileSize > 0
  {
    var head := ReplyHead(0, size);
    ReplyHeadEnds(0, size);
    HeadEndsInPrefix(head, Received(p), |head|);
    assert http(head) == Some(size) && BlankAt(Received(p), |head|);
    hide ReplyHead;
    if p.fileSize == 0 {
      if NoBlank(p.lines) {
        NoBlankInPartialLine(p.lines, p.buf);
      } else {
        HeadIsAlone(p.lines, head, Received(p));
      }
    }
  }

  lemma HeadIsAlone(a: seq<byte>, b: seq<byte>, s: seq<byte>)
    requires HeadEnds(a, |a|) && HeadEnds(b, |b|) && a <= s && b <= s
    ensures a == b
  {
    HeadEndsInPrefix(a, s, |a|);
    HeadEndsInPrefix(b, s, |b|);
    HeadEndsOnce(s, |a|, |b|);
    assert a == s[..|a|] == b;
  }

  /** And the download does get there: once the server has handed over its last byte, the client has
      received it and the writer has emptied the queue, the writer has declared the download
      complete; nobody waits for bytes that never come. */
  lemma EverythingArrives(disk: Disk, http: Http, steps: seq<Step>, c: ClientId)
    requires HttpDecodes(http)
    requires c in RunWorld(disk, http, START, steps).peers
    requires var w := RunWorld(disk, http, START, steps);
      && c in w.server.clients
      && var cl, p := w.server.clients[c], w.peers[c];
      && cl.started && cl.reqPos == 0 && cl.fileSize > 0
      && cl.curPos == cl.fileSize && cl.deq == []
      && Received(p) == cl.accepted
      && p.queue == [] && p.held.None? && p.writer != Failed
    ensures var w := RunWorld(disk, http, START, steps);
      && w.peers[c].writer == Complete
      && w.server.clients[c].path in disk
      && w.peers[c].disk == disk[w.server.clients[c].path]
  {
    StartIsFine(disk, http);
    RunWorldKeeps(disk, http, START, steps);
    hide RunWorld;
    var w := RunWorld(disk, http, START, steps);
    AllAccepted(disk, w.server, c);
    AllSent(disk, http, w, c);
  }

  lemma AllAccepted(disk: Disk, s: Server, c: ClientId)
    requires Good(disk, s) && c in s.clients
    requires var cl := s.clients[c]; cl.started && cl.reqPos == 0 && cl.curPos == cl.fileSize && cl.deq == []
    ensures var cl := s.clients[c];
      && cl.path in disk && cl.fileSize == |disk[cl.path]|
      && cl.accepted == ReplyHead(0, |disk[cl.path]|) + disk[cl.path]
  {
    assert ClientInv(disk, c, ViewOf(s, c));
    EmptyUnsent();
    hide ReplyHead, Unsent;
    var cl := s.clients[c];
    assert cl.accepted + [] == cl.accepted && Body(disk[cl.path], 0, cl.curPos) == disk[cl.path];
  }

  lemma AllSent(disk: Disk, http: Http, w: World, c: ClientId)
    requires WorldInv(disk, http, w) && HttpDecodes(http) && c in w.peers
    requires var cl, p := w.server.clients[c], w.peers[c];
      && cl.path in disk && |disk[cl.path]| > 0
      && cl.accepted == ReplyHead(0, |disk[cl.path]|) + disk[cl.path]
      && Received(p) == cl.accepted && p.queue == [] && p.held.None? && p.writer != Failed
    ensures w.peers[c].writer == Complete && w.peers[c].disk == disk[w.server.clients[c].path]
  {
    var cl, p := w.server.clients[c], w.peers[c];
    var file := disk[cl.path];
    assert LinkInv(http, cl, p);
    hide Good;
    HeadIsKnown(http, p, |file|);
    HeadIsTheReply(http, cl, p, |file|, file);
    assert http(p.lines) == Some(|file|);
    hide ReplyHead, HeadEnds;
    assert |p.body| == |file| && p.body == file;
    assert BodyInv(http, p) && Pending(p.queue) == [];
    CompleteMeansWhole(http, p);
  }
}
