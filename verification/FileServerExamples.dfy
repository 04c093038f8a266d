/** Concrete runs of the file server with one client: those that serve a file, and those that show
    its failures at real inputs. */
module FileServerExamples {
  import opened Streams
  import opened Transport
  import opened HttpText
  import opened DownloadClient
  import opened FileThread
  import opened FileServer
  import opened FileServerTheorems
  import opened FileServerLimits

  // One client, one file.

  function OnDisk(file: seq<byte>): Disk { map["a" := file] }

  function Asked(offset: nat): Client {
    NewClient().(reqPos := offset, curPos := offset, requested := true, path := "a")
  }

  const NO_FILES := Thread(map[], false)

  function Held(size: nat): Thread { Thread(map["a" := Handle(true, size, {0})], false) }

  function Alone(cl: Client, ops: seq<FileOp>, thread: Thread, posted: seq<Posted>): Server {
    Server(map[0 := cl], ops, thread, posted, {})
  }

  /** The client once its open has been reported, and the library took all of the head or none. */
  function Opened(cl: Client, file: seq<byte>, taken: bool): Client {
    var head := ReplyHead(cl.reqPos, |file|);
    cl.(handle := Some("a"), fileSize := |file|, started := true, head := head, reading := cl.curPos < |file|,
        deq := if taken then [] else [SendItem(head, 0)], accepted := if taken then head else [])
  }

  function HeadPlan(cl: Client, file: seq<byte>, taken: bool): seq<int> {
    if taken then [|ReplyHead(cl.reqPos, |file|)|] else []
  }

  function TheRest(file: seq<byte>, from: nat): seq<FileOp> {
    if from < |file| then [Read(0, "a", from, Min(READ_BLOCK, |file| - from))] else []
  }

  /** One event of a run. */
  lemma Then(disk: Disk, s: Server, e: Event, t: Server, es: seq<Event>)
    requires Next(disk, s, e) == t
    ensures Run(disk, s, [e] + es) == Run(disk, t, es)
  {
    assert ([e] + es)[1..] == es;
  }

  lemma ThenEnds(disk: Disk, s: Server)
    ensures Run(disk, s, []) == s
  {
  }

  // The steps.

  lemma Connects(disk: Disk)
    ensures Next(disk, INITIAL, Connect(0)) == Alone(NewClient(), [], NO_FILES, [])
  {
  }

  lemma Asks(disk: Disk, offset: nat)
    ensures Next(disk, Alone(NewClient(), [], NO_FILES, []), Request(0, "a", offset))
         == Alone(Asked(offset), [Open(0, "a")], NO_FILES, [])
  {
    NextInRoom(disk, Alone(NewClient(), [], NO_FILES, []), Request(0, "a", offset),
               Outcome(Asked(offset), [Open(0, "a")], []));
    hide Next, Handled;
    assert [] + [Open(0, "a")] == [Open(0, "a")];
  }

  lemma Opens(file: seq<byte>, cl: Client, n: nat)
    ensures Next(OnDisk(file), Alone(cl, [Open(0, "a")], NO_FILES, []), Work(n))
         == Alone(cl, [], Held(|file|), [OpenDone(0, Some("a"), |file|)])
  {
    var r := Exec(OnDisk(file), NO_FILES, Open(0, "a"), n);
    assert Handle(false, 0, {}).operators + {0} == {0};
    assert r.thread.files == Held(|file|).files;
    assert [] + r.posted == r.posted;
  }

  lemma FlushWhole(data: Block)
    ensures Flush(true, [SendItem(data, 0)], [|data|]) == Flushed([], data, [])
  {
    assert data[0..] == data && data[..|data|] + [] == data;
    assert [SendItem(data, 0)][1..] == [];
  }

  lemma FlushNothing(live: bool, data: Block)
    ensures Flush(live, [SendItem(data, 0)], []) == Flushed([SendItem(data, 0)], [], [])
  {
  }

  lemma HeadIsPushed(cl: Client, file: seq<byte>, taken: bool)
    requires cl.deq == [] && cl.accepted == [] && !cl.reading && (taken ==> cl.live)
    ensures var head := ReplyHead(cl.reqPos, |file|);
            var queued := Push(cl.(handle := Some("a"), fileSize := |file|, started := true, head := head), head);
      && Sent(queued, HeadPlan(cl, file, taken)) == Opened(cl, file, taken).(reading := false)
      && PlanLeft(queued, HeadPlan(cl, file, taken)) == []
  {
    var head := ReplyHead(cl.reqPos, |file|);
    var begun := cl.(handle := Some("a"), fileSize := |file|, started := true, head := head);
    FlushWhole(head);
    FlushNothing(cl.live, head);
    PushedAlone(begun, head);
    hide ReplyHead, Flush, Push, Unsent;
    assert cl.accepted + head == head && cl.accepted + [] == cl.accepted;
  }

  lemma PushedAlone(cl: Client, data: Block)
    requires cl.deq == []
    ensures Push(cl, data) == cl.(deq := [SendItem(data, 0)])
  {
    assert [] + [SendItem(data, 0)] == [SendItem(data, 0)];
  }

  lemma ReadStarts(cl: Client, file: seq<byte>, taken: bool)
    requires !cl.reading
    ensures StartRead(0, Opened(cl, file, taken).(reading := false), [])
         == Outcome(Opened(cl, file, taken), TheRest(file, cl.curPos), [])
  {
    hide ReplyHead;
  }

  lemma OpenIsReported(cl: Client, file: seq<byte>, taken: bool)
    requires cl.deq == [] && cl.accepted == [] && !cl.reading && (taken ==> cl.live)
    ensures OnOpenDone(0, cl, Some("a"), |file|, HeadPlan(cl, file, taken))
         == Outcome(Opened(cl, file, taken), TheRest(file, cl.curPos), [])
  {
    HeadIsPushed(cl, file, taken);
    ReadStarts(cl, file, taken);
    hide ReplyHead, Flush, Sent, PlanLeft, HeadPlan, Push, StartRead, Opened, TheRest;
  }

  lemma DeliversTo(disk: Disk, cl: Client, ops: seq<FileOp>, thread: Thread, done: Posted, plan: seq<int>, o: Outcome)
    requires done.owner == 0 && HandlePosted(done, cl, plan) == o && |ops| + |o.ops| <= OP_QUEUE
    ensures Next(disk, Alone(cl, ops, thread, [done]), Deliver(plan)) == Alone(o.cl, ops + o.ops, thread, [])
  {
    NextInRoom(disk, Alone(cl, ops, thread, [done]), Deliver(plan), o);
    hide HandlePosted, Next;
    assert [done][1..] == [];
  }

  lemma OpenArrives(file: seq<byte>, cl: Client, taken: bool)
    requires cl.deq == [] && cl.accepted == [] && !cl.reading && (taken ==> cl.live)
    ensures var s := Alone(cl, [], Held(|file|), [OpenDone(0, Some("a"), |file|)]);
            Next(OnDisk(file), s, Deliver(HeadPlan(cl, file, taken)))
            == Alone(Opened(cl, file, taken), TheRest(file, cl.curPos), Held(|file|), [])
  {
    var o := Outcome(Opened(cl, file, taken), TheRest(file, cl.curPos), []);
    OpenIsReported(cl, file, taken);
    assert |o.ops| <= 1 && [] + o.ops == o.ops;
    hide Next, OnOpenDone, Opened, HeadPlan, TheRest, Held;
    DeliversTo(OnDisk(file), cl, [], Held(|file|), OpenDone(0, Some("a"), |file|), HeadPlan(cl, file, taken), o);
  }

  lemma Reads(file: seq<byte>, cl: Client, from: nat, n: nat)
    requires from < |file|
    ensures Next(OnDisk(file), Alone(cl, [Read(0, "a", from, |file| - from)], Held(|file|), []), Work(n))
         == Alone(cl, [], Held(|file|), [ReadDone(0, FRead(file, from, |file| - from, n))])
  {
    hide FRead;
    var r := Exec(OnDisk(file), Held(|file|), Read(0, "a", from, |file| - from), n);
    assert [] + r.posted == r.posted;
  }

  lemma ReadsAll(file: seq<byte>, from: nat)
    requires from < |file|
    ensures FRead(file, from, |file| - from, |file| - from) == Some(file[from..])
  {
    assert file[from..from + (|file| - from)] == file[from..];
  }

  lemma ClosePushes(cl: Client)
    ensures CloseClient(0, cl, []).ops == if cl.handle.Some? then [Close(0, cl.handle)] else []
  {
  }

  lemma BreaksTo(disk: Disk, cl: Client, thread: Thread, posted: seq<Posted>, o: Outcome)
    requires cl.live && CloseClient(0, cl, []) == o && |o.ops| <= 1
    ensures Next(disk, Alone(cl, [], thread, posted), Broken(0)) == Alone(o.cl, o.ops, thread, posted)
  {
    hide Next, CloseClient;
    NextInRoom(disk, Alone(cl, [], thread, posted), Broken(0), o);
    assert [] + o.ops == o.ops;
  }

  lemma Breaks(file: seq<byte>, cl: Client, posted: seq<Posted>)
    requires cl.live
    ensures Next(OnDisk(file), Alone(cl, [], Held(|file|), posted), Broken(0))
         == Alone(CloseClient(0, cl, []).cl, if cl.handle.Some? then [Close(0, cl.handle)] else [],
                  Held(|file|), posted)
  {
    var o := CloseClient(0, cl, []);
    ClosePushes(cl);
    hide CloseClient, Held, OnDisk;
    BreaksTo(OnDisk(file), cl, Held(|file|), posted, o);
  }

  // Serving a file.

  /** The client once it has had everything from its offset on. */
  function Served(file: seq<byte>, offset: nat): Client
    requires offset < |file|
  {
    Opened(Asked(offset), file, true).(accepted := ReplyHead(offset, |file|) + file[offset..], curPos := |file|,
                                       reading := false, handle := None, live := false)
  }

  lemma BodyIsSent(file: seq<byte>, offset: nat)
    requires offset < |file|
    ensures OnReadDone(0, Opened(Asked(offset), file, true), Some(file[offset..]), [|file| - offset])
         == Outcome(Served(file, offset), [Close(0, Some("a"))], [])
  {
    var body: Block := file[offset..];
    FlushWhole(body);
    hide ReplyHead, Flush;
    var queued := Push(Opened(Asked(offset), file, true).(reading := false), body);
    assert queued.deq == [SendItem(body, 0)];
  }

  lemma BodyArrives(file: seq<byte>, offset: nat)
    requires offset < |file|
    ensures Next(OnDisk(file),
                 Alone(Opened(Asked(offset), file, true), [], Held(|file|), [ReadDone(0, Some(file[offset..]))]),
                 Deliver([|file| - offset]))
         == Alone(Served(file, offset), [Close(0, Some("a"))], Held(|file|), [])
  {
    BodyIsSent(file, offset);
    assert [] + [Close(0, Some("a"))] == [Close(0, Some("a"))];
    hide Next, OnReadDone, Opened, Served, Held;
    DeliversTo(OnDisk(file), Opened(Asked(offset), file, true), [], Held(|file|), ReadDone(0, Some(file[offset..])),
               [|file| - offset], Outcome(Served(file, offset), [Close(0, Some("a"))], []));
  }

  function TransferRun(file: seq<byte>, offset: nat): seq<Event>
    requires offset < |file|
  {
    [Work(|file| - offset)] + ([Deliver([|file| - offset])] + [])
  }

  /** Up to the reply. */
  function AskRun(file: seq<byte>, offset: nat, rest: seq<Event>): seq<Event> {
    [Connect(0)] + ([Request(0, "a", offset)] + ([Work(1)] + ([Deliver(HeadPlan(Asked(offset), file, true))] + rest)))
  }

  /** The states on the way. */
  lemma AskSteps(file: seq<byte>, offset: nat)
    ensures var d, cl := OnDisk(file), Asked(offset);
            var s1, s2 := Alone(NewClient(), [], NO_FILES, []), Alone(cl, [Open(0, "a")], NO_FILES, []);
            var s3 := Alone(cl, [], Held(|file|), [OpenDone(0, Some("a"), |file|)]);
      && Next(d, INITIAL, Connect(0)) == s1
      && Next(d, s1, Request(0, "a", offset)) == s2
      && Next(d, s2, Work(1)) == s3
      && Next(d, s3, Deliver(HeadPlan(cl, file, true)))
         == Alone(Opened(cl, file, true), TheRest(file, offset), Held(|file|), [])
  {
    hide Next;
    Connects(OnDisk(file));
    Asks(OnDisk(file), offset);
    Opens(file, Asked(offset), 1);
    OpenArrives(file, Asked(offset), true);
  }

  lemma AskReaches(file: seq<byte>, offset: nat, rest: seq<Event>)
    ensures Reached(OnDisk(file), AskRun(file, offset, rest))
         == Run(OnDisk(file), Alone(Opened(Asked(offset), file, true), TheRest(file, offset), Held(|file|), []), rest)
  {
    var d, cl := OnDisk(file), Asked(offset);
    var s1, s2 := Alone(NewClient(), [], NO_FILES, []), Alone(cl, [Open(0, "a")], NO_FILES, []);
    var s3 := Alone(cl, [], Held(|file|), [OpenDone(0, Some("a"), |file|)]);
    var s4 := Alone(Opened(cl, file, true), TheRest(file, offset), Held(|file|), []);
    var e4 := Deliver(HeadPlan(cl, file, true));
    AskSteps(file, offset);
    hide Next, Run, Opened, HeadPlan, TheRest, NewClient, Asked;
    Then(d, s3, e4, s4, rest);
    Then(d, s2, Work(1), s3, [e4] + rest);
    Then(d, s1, Request(0, "a", offset), s2, [Work(1)] + ([e4] + rest));
    Then(d, INITIAL, Connect(0), s1, [Request(0, "a", offset)] + ([Work(1)] + ([e4] + rest)));
  }

  lemma TransferCompletes(file: seq<byte>, offset: nat)
    requires offset < |file| <= READ_BLOCK
    ensures var s := Alone(Opened(Asked(offset), file, true), TheRest(file, offset), Held(|file|), []);
      Run(OnDisk(file), s, TransferRun(file, offset))
         == Alone(Served(file, offset), [Close(0, Some("a"))], Held(|file|), [])
  {
    var d, n, cl := OnDisk(file), |file| - offset, Opened(Asked(offset), file, true);
    var s4 := Alone(cl, [Read(0, "a", offset, n)], Held(|file|), []);
    var s5 := Alone(cl, [], Held(|file|), [ReadDone(0, Some(file[offset..]))]);
    var s6 := Alone(Served(file, offset), [Close(0, Some("a"))], Held(|file|), []);
    ReadsAll(file, offset);
    Reads(file, cl, offset, n);
    BodyArrives(file, offset);
    assert TheRest(file, offset) == [Read(0, "a", offset, n)];
    hide Next, Run, Opened, Served, FRead, Held, Asked, TheRest;
    ThenEnds(d, s6);
    Then(d, s5, Deliver([n]), s6, []);
    Then(d, s4, Work(n), s5, [Deliver([n])] + []);
  }

  /** Every file that fits one read can be served from any offset inside it: head and rest of the
      file are accepted, the connection is closed, and nothing is lost. */
  lemma ServingIsReachable(file: seq<byte>, offset: nat)
    requires offset < |file| <= READ_BLOCK
    ensures var es := AskRun(file, offset, TransferRun(file, offset));
      Reached(OnDisk(file), es) == Alone(Served(file, offset), [Close(0, Some("a"))], Held(|file|), [])
  {
    TransferCompletes(file, offset);
    AskReaches(file, offset, TransferRun(file, offset));
  }

  /** A finished 206 transfer: of a file of two bytes, from offset 1, one byte is sent behind a head
      that announces two. */
  lemma PartialContentAnnouncesTheWhole()
    ensures var file: seq<byte> := [7, 8];
            var es := AskRun(file, 1, TransferRun(file, 1));
            var clients := Reached(OnDisk(file), es).clients;
      && 0 in clients && !clients[0].live && clients[0].fileSize == 2
      && clients[0].accepted == ReplyHead(1, 2) + [8]
  {
    var file: seq<byte> := [7, 8];
    ServingIsReachable(file, 1);
    hide ReplyHead, Run, AskRun;
    assert file[1..] == [8];
  }

  /** Every request at or beyond the end of the file, of an empty one included, reaches a stall. */
  lemma StallIsReachable(file: seq<byte>, offset: nat)
    requires offset >= |file|
    ensures var s := Reached(OnDisk(file), AskRun(file, offset, []));
      && 0 in s.clients && Stalled(s, 0)
      && s.clients[0].reqPos == offset && s.clients[0].fileSize == |file|
  {
    AskReaches(file, offset, []);
    ThenEnds(OnDisk(file), Alone(Opened(Asked(offset), file, true), TheRest(file, offset), Held(|file|), []));
    hide Run, AskRun, ReplyHead;
  }

  /** An empty file: the connection waits until the peer breaks it. */
  lemma EmptyFileStallsForGood(more: seq<Event>)
    requires Broken(0) !in more
    ensures var s := Reached(OnDisk([]), AskRun([], 0, []));
            var t := Run(OnDisk([]), s, more);
      0 in s.clients && Stalled(s, 0) && 0 in t.clients && t.clients[0] == s.clients[0]
  {
    StallIsReachable([], 0);
    hide Run, AskRun, Stalled;
    StallLastsUntilBroken(OnDisk([]), AskRun([], 0, []), 0, more);
  }

  // A crash of the file thread.

  function CrashRun(): seq<Event> {
    var tail := [Broken(0)] + ([Deliver([])] + ([Work(1)] + ([Work(1)] + [])));
    AskRun([7], 0, [Work(0)] + tail)
  }

  function Gone(): Client { Opened(Asked(0), [7], true).(handle := None, live := false) }

  lemma OrphanIsHandled()
    ensures HandlePosted(ReadDone(0, None), Gone(), []) == Outcome(Gone().(reading := false), [Close(0, None)], [])
  {
    hide ReplyHead;
  }

  lemma OrphanIsDelivered()
    ensures Next(OnDisk([7]), Alone(Gone(), [Close(0, Some("a"))], Held(1), [ReadDone(0, None)]), Deliver([]))
         == Alone(Gone().(reading := false), [Close(0, Some("a")), Close(0, None)], Held(1), [])
  {
    var o := Outcome(Gone().(reading := false), [Close(0, None)], []);
    OrphanIsHandled();
    DeliversTo(OnDisk([7]), Gone(), [Close(0, Some("a"))], Held(1), ReadDone(0, None), [], o);
    hide Gone, Next, Held;
    assert [Close(0, Some("a"))] + [Close(0, None)] == [Close(0, Some("a")), Close(0, None)];
  }

  lemma FileIsClosed(cl: Client)
    ensures Next(OnDisk([7]), Alone(cl, [Close(0, Some("a")), Close(0, None)], Held(1), []), Work(1))
         == Alone(cl, [Close(0, None)], Thread(map["a" := Handle(false, 1, {})], false), [])
  {
    var r := Exec(OnDisk([7]), Held(1), Close(0, Some("a")), 1);
    assert Held(1).files["a"].operators - {0} == {};
    assert r.thread.files == map["a" := Handle(false, 1, {})];
    assert r.posted == [] && [] + r.posted == [];
  }

  lemma ThreadFaults(cl: Client, t: Thread)
    requires !t.faulted
    ensures Next(OnDisk([7]), Alone(cl, [Close(0, None)], t, []), Work(1)).thread.faulted
  {
  }

  /** The crash can happen: the read fails, the peer goes away, the failure is reported. */
  lemma NullCloseIsReachable()
    ensures Reached(OnDisk([7]), CrashRun()).thread.faulted
  {
    var d := OnDisk([7]);
    var cl, failed := Opened(Asked(0), [7], true), [ReadDone(0, None)];
    var s4, s5 := Alone(cl, TheRest([7], 0), Held(1), []), Alone(cl, [], Held(1), failed);
    var s6, cl7 := Alone(Gone(), [Close(0, Some("a"))], Held(1), failed), Gone().(reading := false);
    var s7 := Alone(cl7, [Close(0, Some("a")), Close(0, None)], Held(1), []);
    var closed := Thread(map["a" := Handle(false, 1, {})], false);
    Reads([7], cl, 0, 0);
    Breaks([7], cl, failed);
    assert CloseClient(0, cl, []).cl == Gone() && cl.handle == Some("a") && cl.live;
    OrphanIsDelivered();
    FileIsClosed(cl7);
    ThreadFaults(cl7, closed);
    var r3 := [Work(1)] + [];
    var r2 := [Work(1)] + r3;
    var r1 := [Deliver([])] + r2;
    AskReaches([7], 0, [Work(0)] + ([Broken(0)] + r1));
    hide Next, Run, Opened, Gone, AskRun;
    Then(d, s4, Work(0), s5, [Broken(0)] + r1);
    Then(d, s5, Broken(0), s6, r1);
    Then(d, s6, Deliver([]), s7, r2);
    Then(d, s7, Work(1), Alone(cl7, [Close(0, None)], closed, []), r3);
    var end := Next(d, Alone(cl7, [Close(0, None)], closed, []), Work(1));
    Then(d, Alone(cl7, [Close(0, None)], closed, []), Work(1), end, []);
    ThenEnds(d, end);
  }

  // A connection closed while its open is under way.

  function Left(): Client { Asked(0).(live := false, abandoned := true) }

  lemma LeavesEarly(disk: Disk)
    ensures Next(disk, Alone(Asked(0), [Open(0, "a")], NO_FILES, []), Broken(0))
         == Alone(Left(), [Open(0, "a")], NO_FILES, [])
  {
    NextInRoom(disk, Alone(Asked(0), [Open(0, "a")], NO_FILES, []), Broken(0), Outcome(Left(), [], []));
    hide Next, Handled;
    assert [Open(0, "a")] + [] == [Open(0, "a")];
  }

  /** With a file of one byte: its read succeeds and the connection keeps the file open; with the
      read failing it lets go. */
  function LeaveRun(plan: seq<int>, rest: seq<Event>): seq<Event> {
    [Connect(0)] + ([Request(0, "a", 0)] + ([Broken(0)] + ([Work(1)] + ([Deliver(plan)] + rest))))
  }

  lemma LeaveReaches(rest: seq<Event>)
    ensures Reached(OnDisk([7]), LeaveRun([], rest))
         == Run(OnDisk([7]), Alone(Opened(Left(), [7], false), [Read(0, "a", 0, 1)], Held(1), []), rest)
  {
    var d, done := OnDisk([7]), [OpenDone(0, Some("a"), 1)];
    var s1, s2 := Alone(NewClient(), [], NO_FILES, []), Alone(Asked(0), [Open(0, "a")], NO_FILES, []);
    var s3, s4 := Alone(Left(), [Open(0, "a")], NO_FILES, []), Alone(Left(), [], Held(1), done);
    var s5 := Alone(Opened(Left(), [7], false), TheRest([7], 0), Held(1), []);
    Connects(d);
    Asks(d, 0);
    LeavesEarly(d);
    Opens([7], Left(), 1);
    OpenArrives([7], Left(), false);
    assert HeadPlan(Left(), [7], false) == [];
    hide Next, Run, Opened, Left, NewClient;
    Then(d, s4, Deliver([]), s5, rest);
    Then(d, s3, Work(1), s4, [Deliver([])] + rest);
    Then(d, s2, Broken(0), s3, [Work(1)] + ([Deliver([])] + rest));
    Then(d, s1, Request(0, "a", 0), s2, [Broken(0)] + ([Work(1)] + ([Deliver([])] + rest)));
    Then(d, INITIAL, Connect(0), s1, [Request(0, "a", 0)] + ([Broken(0)] + ([Work(1)] + ([Deliver([])] + rest))));
  }

  lemma LateBlock()
    ensures var s := Alone(Opened(Left(), [7], false), [], Held(1), [ReadDone(0, Some([7]))]);
            var t := Next(OnDisk([7]), s, Deliver([]));
            0 in t.clients && !t.clients[0].live && t.ops == [] && t.posted == [] && t.thread == Held(1)
  {
    hide ReplyHead;
  }

  /** The leak can happen: the peer goes away before the open is reported, and the read succeeds. */
  lemma LeakIsReachable()
    ensures Leaked(Reached(OnDisk([7]), LeaveRun([], [Work(1)] + ([Deliver([])] + []))), 0)
  {
    var d, cl := OnDisk([7]), Opened(Left(), [7], false);
    var s5, s6 := Alone(cl, [Read(0, "a", 0, 1)], Held(1), []), Alone(cl, [], Held(1), [ReadDone(0, Some([7]))]);
    ReadsAll([7], 0);
    assert [7][0..] == [7];
    Reads([7], cl, 0, 1);
    LateBlock();
    LeaveReaches([Work(1)] + ([Deliver([])] + []));
    var end := Next(d, s6, Deliver([]));
    hide Next, Run, Opened, Left, LeaveRun;
    Then(d, s5, Work(1), s6, [Deliver([])] + []);
    Then(d, s6, Deliver([]), end, []);
    ThenEnds(d, end);
    assert "a" in Registered(end.thread, 0);
  }

  /** Closing during the open does not leak by itself: when the file does not exist nothing is
      registered. */
  lemma NoLeakWithoutFile()
    ensures var s := Reached(map[], LeaveRun([], []));
      && 0 in s.clients && s.clients[0].abandoned && s.ops == [] && s.posted == []
      && Registered(s.thread, 0) == {}
  {
    var d: Disk := map[];
    var s1, s2 := Alone(NewClient(), [], NO_FILES, []), Alone(Asked(0), [Open(0, "a")], NO_FILES, []);
    var s3 := Alone(Left(), [Open(0, "a")], NO_FILES, []);
    Connects(d);
    Asks(d, 0);
    LeavesEarly(d);
    NothingOpens();
    var s4 := Next(d, s3, Work(1));
    var end := Next(d, s4, Deliver([]));
    hide Next, Run, Left, NewClient;
    Then(d, s4, Deliver([]), end, []);
    Then(d, s3, Work(1), s4, [Deliver([])] + []);
    Then(d, s2, Broken(0), s3, [Work(1)] + ([Deliver([])] + []));
    Then(d, s1, Request(0, "a", 0), s2, [Broken(0)] + ([Work(1)] + ([Deliver([])] + [])));
    Then(d, INITIAL, Connect(0), s1, [Request(0, "a", 0)] + ([Broken(0)] + ([Work(1)] + ([Deliver([])] + []))));
    ThenEnds(d, end);
  }

  lemma NothingOpens()
    ensures var s := Next(map[], Alone(Left(), [Open(0, "a")], NO_FILES, []), Work(1));
            var t := Next(map[], s, Deliver([]));
      0 in t.clients && t.clients[0].abandoned && t.ops == [] && t.posted == [] && Registered(t.thread, 0) == {}
  {
    hide NotFoundReply;
    var s := Next(map[], Alone(Left(), [Open(0, "a")], NO_FILES, []), Work(1));
    assert s.posted == [OpenDone(0, None, 0)] && s.ops == [];
    assert s.thread.files == map["a" := Handle(false, 0, {})];
    FlushNothing(false, NotFoundReply());
    hide Flush;
  }
}
