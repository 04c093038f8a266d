/** How many clients the op queue can take: the ring of 256 holds two operations of 128 clients. */
module FileServerCrowd {
  import opened Streams
  import opened Transport
  import opened HttpText
  import opened DownloadClient
  import opened FileThread
  import opened FileServer
  import opened FileServerTheorems
  import opened FileServerLimits
  import opened FileServerExamples

  const FILE: seq<byte> := [7]
  const DISK: Disk := OnDisk(FILE)

  /** That many clients connect and ask, while the file thread is asleep. */
  function Crowd(n: nat): seq<Event> {
    if n == 0 then [] else Crowd(n - 1) + [Connect(n - 1)] + [Request(n - 1, "a", 0)]
  }

  // A rush: n clients ask for one file, all opens are done and reported, and all peers go away
  // while the file thread is asleep again.

  function Worked(n: nat, k: nat): seq<Event> { if k == 0 then Crowd(n) else Worked(n, k - 1) + [Work(1)] }

  function Delivered(n: nat, k: nat): seq<Event> {
    if k == 0 then Worked(n, n) else Delivered(n, k - 1) + [Deliver([])]
  }

  function Rush(n: nat, k: nat): seq<Event> {
    if k == 0 then Delivered(n, n) else Rush(n, k - 1) + [Broken(k - 1)]
  }

  function Upto(k: nat): (s: set<nat>)
    ensures forall c: nat :: c in s <==> c < k
  {
    if k == 0 then {} else Upto(k - 1) + {k - 1}
  }

  function Everyone(n: nat, upTo: nat, done: Client, yet: Client): map<ClientId, Client> {
    map c | c in Upto(n) :: if c < upTo then done else yet
  }

  function Opens(from: nat, to: nat): seq<FileOp>
    requires from <= to
  {
    seq(to - from, i requires 0 <= i < to - from => Open(from + i, "a"))
  }

  function Dones(from: nat, to: nat): seq<Posted>
    requires from <= to
  {
    seq(to - from, i requires 0 <= i < to - from => OpenDone(from + i, Some("a"), 1))
  }

  function ReadsOf(to: nat): seq<FileOp> { seq(to, i requires 0 <= i < to => Read(i, "a", 0, 1)) }

  function ClosesOf(to: nat): seq<FileOp> { seq(to, i requires 0 <= i < to => Close(i, Some("a"))) }

  function HeldBy(k: nat): Thread {
    if k == 0 then NO_FILES else Thread(map["a" := Handle(true, 1, Upto(k))], false)
  }

  function Ready(): Client { Opened(Asked(0), FILE, false) }

  function Asking(n: nat): Server { Server(Everyone(n, 0, Asked(0), Asked(0)), Opens(0, n), NO_FILES, [], {}) }

  function Opening(n: nat, k: nat): Server
    requires k <= n
  {
    Server(Everyone(n, 0, Asked(0), Asked(0)), Opens(k, n), HeldBy(k), Dones(0, k), {})
  }

  function Reading(n: nat, k: nat): Server
    requires k <= n
  {
    Server(Everyone(n, k, Ready(), Asked(0)), ReadsOf(k), HeldBy(n), Dones(k, n), {})
  }

  function Leaving(n: nat, k: nat): Server
    requires k <= n
  {
    Server(Everyone(n, k, Ready().(handle := None, live := false), Ready()),
           ReadsOf(n) + ClosesOf(k), HeldBy(n), [], {})
  }

  lemma CrowdSnoc(disk: Disk, n: nat)
    requires n > 0
    ensures Reached(disk, Crowd(n))
         == Next(disk, Next(disk, Reached(disk, Crowd(n - 1)), Connect(n - 1)), Request(n - 1, "a", 0))
  {
    RunSnoc(disk, INITIAL, Crowd(n - 1), Connect(n - 1));
    RunSnoc(disk, INITIAL, Crowd(n - 1) + [Connect(n - 1)], Request(n - 1, "a", 0));
  }

  lemma {:induction false} CrowdState(disk: Disk, n: nat)
    requires n <= OP_QUEUE
    ensures Reached(disk, Crowd(n)) == Asking(n)
  {
    hide *;
    if n == 0 {
      NoCrowd(disk);
    } else {
      CrowdSnoc(disk, n);
      CrowdState(disk, n - 1);
      AskStep(disk, n - 1);
    }
  }

  lemma NoCrowd(disk: Disk)
    ensures Reached(disk, Crowd(0)) == Asking(0)
  {
    assert Everyone(0, 0, Asked(0), Asked(0)) == map[];
  }

  /** A newcomer's open is queued, or lost when the ring is full. */
  lemma AskStep(disk: Disk, n: nat)
    requires n <= OP_QUEUE
    ensures var t := Next(disk, Next(disk, Asking(n), Connect(n)), Request(n, "a", 0));
      if n < OP_QUEUE then t == Asking(n + 1)
      else Open(n, "a") in t.lost && n in t.clients && t.clients[n] == Asked(0)
  {
    var t := Next(disk, Asking(n), Connect(n));
    var o := Outcome(Asked(0), [Open(n, "a")], []);
    assert t.clients[n] == NewClient() && t.ops == Opens(0, n);
    assert OnRequest(n, NewClient(), "a", 0) == o;
    var u := Next(disk, t, Request(n, "a", 0));
    assert u == Apply(t, n, o);
    hide Next;
    if n < OP_QUEUE {
      AppliesInRoom(t, n, o);
      hide Apply;
      assert Opens(0, n) + [Open(n, "a")] == Opens(0, n + 1);
      assert u.clients == Everyone(n + 1, 0, Asked(0), Asked(0));
    } else {
      PushedOrRefused(t.ops, o.ops);
      hide PushOps;
    }
  }

  /** The first client too many is never answered, whatever comes, until its peer goes away. */
  lemma LatecomerIsNeverAnswered(disk: Disk, more: seq<Event>)
    requires Broken(OP_QUEUE) !in more
    ensures var t := Run(disk, Reached(disk, Crowd(OP_QUEUE + 1)), more);
      Stalled(t, OP_QUEUE) && t.clients[OP_QUEUE] == Asked(0)
  {
    var es := Crowd(OP_QUEUE + 1);
    CrowdSnoc(disk, OP_QUEUE + 1);
    CrowdState(disk, OP_QUEUE);
    AskStep(disk, OP_QUEUE);
    hide Next, Run, Crowd, Stalled, Refused;
    LostExactlyWhenRefused(disk, es, Open(OP_QUEUE, "a"));
    StallsExactlyWhen(disk, es, OP_QUEUE);
    StallLastsUntilBroken(disk, es, OP_QUEUE, more);
  }

  lemma {:induction false} CrowdLoses(disk: Disk, n: nat)
    requires n > OP_QUEUE
    ensures Reached(disk, Crowd(n)).lost != {}
  {
    CrowdSnoc(disk, n);
    hide Run, Next;
    var s := Reached(disk, Crowd(n - 1));
    if n - 1 == OP_QUEUE {
      CrowdState(disk, n - 1);
      AskStep(disk, n - 1);
    } else {
      CrowdLoses(disk, n - 1);
      LostStays(disk, s, Connect(n - 1));
      LostStays(disk, Next(disk, s, Connect(n - 1)), Request(n - 1, "a", 0));
    }
  }

  /** Clients that only ask lose an operation exactly when they outnumber the slots of the ring. */
  lemma CrowdOverflowsExactlyBeyondTheRing(disk: Disk, n: nat)
    ensures Reached(disk, Crowd(n)).lost != {} <==> n > 256
  {
    if n > OP_QUEUE {
      CrowdLoses(disk, n);
    } else {
      CrowdState(disk, n);
    }
  }

  lemma OpenStep(n: nat, k: nat)
    requires k < n
    ensures Next(DISK, Opening(n, k), Work(1)) == Opening(n, k + 1)
  {
    var s := Opening(n, k);
    assert s.ops[0] == Open(k, "a") && s.ops[1..] == Opens(k + 1, n);
    assert Dones(0, k) + [OpenDone(k, Some("a"), 1)] == Dones(0, k + 1);
    var r := Exec(DISK, HeldBy(k), Open(k, "a"), 1);
    assert Upto(k) + {k} == Upto(k + 1);
    assert r.thread.files == HeldBy(k + 1).files;
  }

  lemma ReadyWhenReported(c: ClientId)
    ensures OnOpenDone(c, Asked(0), Some("a"), 1, []) == Outcome(Ready(), [Read(c, "a", 0, 1)], [])
  {
    HeadIsPushed(Asked(0), FILE, false);
    hide ReplyHead, Flush, Sent, PlanLeft, Push;
  }

  lemma DeliversOne(disk: Disk, s: Server, plan: seq<int>, o: Outcome)
    requires s.posted != [] && s.posted[0].owner in s.clients && |s.ops| + |o.ops| <= OP_QUEUE
    requires HandlePosted(s.posted[0], s.clients[s.posted[0].owner], plan) == o
    ensures Next(disk, s, Deliver(plan))
         == Server(s.clients[s.posted[0].owner := o.cl], s.ops + o.ops, s.thread, s.posted[1..], s.lost)
  {
    NextInRoom(disk, s, Deliver(plan), o);
    hide HandlePosted, Next;
  }

  lemma ReadStep(n: nat, k: nat)
    requires k < n <= OP_QUEUE
    ensures Next(DISK, Reading(n, k), Deliver([])) == Reading(n, k + 1)
  {
    var s := Reading(n, k);
    hide OnOpenDone, Ready, HeldBy, Asked, Next, Dones, ReadsOf, Everyone;
    ReadyWhenReported(k);
    FirstDone(k, n);
    OneMoreRead(k);
    OneMoreDone(n, k, Ready(), Asked(0));
    DeliversOne(DISK, s, [], Outcome(Ready(), [Read(k, "a", 0, 1)], []));
  }

  lemma FirstDone(from: nat, to: nat)
    requires from < to
    ensures Dones(from, to) != [] && Dones(from, to)[0] == OpenDone(from, Some("a"), 1)
    ensures Dones(from, to)[1..] == Dones(from + 1, to)
  {
  }

  lemma OneMoreRead(k: nat)
    ensures |ReadsOf(k)| == k && ReadsOf(k) + [Read(k, "a", 0, 1)] == ReadsOf(k + 1)
  {
  }

  lemma OneMoreDone(n: nat, k: nat, done: Client, yet: Client)
    requires k < n
    ensures k in Everyone(n, k, done, yet) && Everyone(n, k, done, yet)[k] == yet
    ensures Everyone(n, k, done, yet)[k := done] == Everyone(n, k + 1, done, yet)
  {
  }

  lemma AllAsking(n: nat)
    ensures Asking(n) == Opening(n, 0)
  {
  }

  lemma AllOpened(n: nat)
    ensures Opening(n, n) == Reading(n, 0)
  {
    assert Opens(n, n) == ReadsOf(0);
    assert Opening(n, n).clients == Reading(n, 0).clients;
  }

  lemma AllReading(n: nat)
    ensures Reading(n, n) == Leaving(n, 0)
  {
    assert ReadsOf(n) + ClosesOf(0) == ReadsOf(n);
    assert Reading(n, n).clients == Leaving(n, 0).clients && Dones(n, n) == [];
  }

  lemma LeaveStep(n: nat, k: nat)
    requires k < n && n + k < OP_QUEUE
    ensures Next(DISK, Leaving(n, k), Broken(k)) == Leaving(n, k + 1)
  {
    var s, gone := Leaving(n, k), Ready().(handle := None, live := false);
    assert CloseClient(k, Ready(), []) == Outcome(gone, [Close(k, Some("a"))], []);
    assert Ready().live;
    hide CloseClient, Ready, HeldBy;
    NextInRoom(DISK, s, Broken(k), Outcome(gone, [Close(k, Some("a"))], []));
    hide Next;
    assert s.ops + [Close(k, Some("a"))] == ReadsOf(n) + ClosesOf(k + 1);
    assert s.clients[k := gone] == Everyone(n, k + 1, gone, Ready());
  }

  lemma LossStep(n: nat, k: nat)
    requires k < n && n + k == OP_QUEUE
    ensures Next(DISK, Leaving(n, k), Broken(k)).lost != {}
  {
    var s := Leaving(n, k);
    assert CloseClient(k, Ready(), []).ops == [Close(k, Some("a"))] && Ready().live;
    hide CloseClient, Ready, HeldBy;
    PushedOrRefused(s.ops, [Close(k, Some("a"))]);
    hide PushOps;
    assert Close(k, Some("a")) in Next(DISK, s, Broken(k)).lost;
  }

  lemma {:induction false} WorkedState(n: nat, k: nat)
    requires k <= n <= OP_QUEUE
    ensures Reached(DISK, Worked(n, k)) == Opening(n, k)
  {
    hide Next, Run, Opening, Asking, Crowd;
    if k == 0 {
      CrowdState(DISK, n);
      AllAsking(n);
    } else {
      WorkedState(n, k - 1);
      RunSnoc(DISK, INITIAL, Worked(n, k - 1), Work(1));
      OpenStep(n, k - 1);
    }
  }

  lemma {:induction false} DeliveredState(n: nat, k: nat)
    requires k <= n <= OP_QUEUE
    ensures Reached(DISK, Delivered(n, k)) == Reading(n, k)
  {
    hide Next, Run, Opening, Reading, Worked;
    if k == 0 {
      WorkedState(n, n);
      AllOpened(n);
    } else {
      DeliveredState(n, k - 1);
      RunSnoc(DISK, INITIAL, Delivered(n, k - 1), Deliver([]));
      ReadStep(n, k - 1);
    }
  }

  lemma {:induction false} RushState(n: nat, k: nat)
    requires k <= n <= OP_QUEUE && n + k <= OP_QUEUE
    ensures Reached(DISK, Rush(n, k)) == Leaving(n, k)
  {
    hide Next, Run, Reading, Leaving, Delivered;
    if k == 0 {
      DeliveredState(n, n);
      AllReading(n);
    } else {
      RushState(n, k - 1);
      RunSnoc(DISK, INITIAL, Rush(n, k - 1), Broken(k - 1));
      LeaveStep(n, k - 1);
    }
  }

  lemma LostStays(disk: Disk, s: Server, e: Event)
    requires s.lost != {}
    ensures Next(disk, s, e).lost != {}
  {
    var op :| op in s.lost;
    LostStep(disk, s, e, op);
    hide Next;
  }

  lemma {:induction false} RushLoses(n: nat, k: nat)
    requires k <= n <= OP_QUEUE && n + k > OP_QUEUE
    ensures Reached(DISK, Rush(n, k)).lost != {}
  {
    RunSnoc(DISK, INITIAL, Rush(n, k - 1), Broken(k - 1));
    hide Next, Run;
    if n + (k - 1) == OP_QUEUE {
      RushState(n, k - 1);
      LossStep(n, k - 1);
    } else {
      RushLoses(n, k - 1);
      LostStays(DISK, Reached(DISK, Rush(n, k - 1)), Broken(k - 1));
    }
  }

  /** What has been lost stays lost while the rush goes on. */
  lemma {:induction false} RushKeepsLosses(n: nat, k: nat)
    requires Reached(DISK, Crowd(n)).lost != {}
    ensures Reached(DISK, Rush(n, k)).lost != {}
    decreases k
  {
    hide Next, Run;
    if k == 0 {
      DeliveriesKeepLosses(n, n);
    } else {
      RushKeepsLosses(n, k - 1);
      RunSnoc(DISK, INITIAL, Rush(n, k - 1), Broken(k - 1));
      LostStays(DISK, Reached(DISK, Rush(n, k - 1)), Broken(k - 1));
    }
  }

  lemma {:induction false} DeliveriesKeepLosses(n: nat, k: nat)
    requires Reached(DISK, Crowd(n)).lost != {}
    ensures Reached(DISK, Delivered(n, k)).lost != {}
    decreases k
  {
    hide Next, Run;
    if k == 0 {
      WorkKeepsLosses(n, n);
    } else {
      DeliveriesKeepLosses(n, k - 1);
      RunSnoc(DISK, INITIAL, Delivered(n, k - 1), Deliver([]));
      LostStays(DISK, Reached(DISK, Delivered(n, k - 1)), Deliver([]));
    }
  }

  lemma {:induction false} WorkKeepsLosses(n: nat, k: nat)
    requires Reached(DISK, Crowd(n)).lost != {}
    ensures Reached(DISK, Worked(n, k)).lost != {}
    decreases k
  {
    hide Next, Run;
    if k > 0 {
      WorkKeepsLosses(n, k - 1);
      RunSnoc(DISK, INITIAL, Worked(n, k - 1), Work(1));
      LostStays(DISK, Reached(DISK, Worked(n, k - 1)), Work(1));
    }
  }

  /** 128 is the right number: n clients with a READ and a CLOSE queued each have lost an operation
      exactly when there are more than 128 of them. */
  lemma RushOverflowsExactlyBeyond128(n: nat)
    ensures Reached(DISK, Rush(n, n)).lost != {} <==> n > 128
  {
    if n > OP_QUEUE {
      CrowdLoses(DISK, n);
      RushKeepsLosses(n, n);
    } else if n > MAX_QUEUED_CLIENTS {
      RushLoses(n, n);
    } else {
      RushState(n, n);
    }
  }
}
