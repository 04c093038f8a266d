/** The whole file server: any number of connections, one bounded queue to the file thread, one
    file thread, and the completions it posts back.  Every interleaving is a list of events. */
module FileServer {
  import opened Streams
  import opened HttpText
  import opened DownloadClient
  import opened FileThread
  import opened DownloadInvariant
  import opened DownloadSteps

  /** `capacity<256>` of `file_op_queue_`; a push into a full queue fails and nobody looks. */
  const OP_QUEUE: nat := 256

  /** `lost` is history: the operations the full queue has refused. */
  datatype Server = Server(
    clients: map<ClientId, Client>, ops: seq<FileOp>, thread: Thread, posted: seq<Posted>, lost: set<FileOp>)

  const INITIAL := Server(map[], [], Thread(map[], false), [], {})

  datatype Event =
    | Connect(c: ClientId)
    | Request(c: ClientId, path: Path, offset: nat)
    | BadRequest(c: ClientId, message: seq<byte>, plan: seq<int>)
    | Writable(c: ClientId, plan: seq<int>)
    | Broken(c: ClientId)
    | Work(n: nat)
    | Deliver(plan: seq<int>)

  /** Events that can occur: one request head per connection, nothing on a closed socket, and no
      file work once the file thread has crashed. */
  predicate Enabled(s: Server, e: Event) {
    match e
    case Connect(c) => c !in s.clients
    case Request(c, _, _) => c in s.clients && s.clients[c].live && !s.clients[c].requested
    case BadRequest(c, _, _) => c in s.clients && s.clients[c].live && !s.clients[c].requested
    case Writable(c, _) => c in s.clients && s.clients[c].live
    case Broken(c) => c in s.clients && s.clients[c].live
    case Work(_) => s.ops != [] && !s.thread.faulted
    case Deliver(_) => s.posted != [] && s.posted[0].owner in s.clients
  }

  /** `file_op_queue_.push`, once per queued operation: what the queue becomes, and what it refuses. */
  function PushOps(ops: seq<FileOp>, more: seq<FileOp>): (r: (seq<FileOp>, seq<FileOp>))
    ensures r.0 + r.1 == ops + more && ops <= r.0
    ensures r.1 == [] <==> more == [] || |ops| + |more| <= OP_QUEUE
  {
    var fit := Min(|more|, if |ops| < OP_QUEUE then OP_QUEUE - |ops| else 0);
    (ops + more[..fit], more[fit..])
  }

  /** The outcome of a handler of client `c` put back into the server. */
  function Apply(s: Server, c: ClientId, o: Outcome): Server {
    var q := PushOps(s.ops, o.ops);
    s.(clients := s.clients[c := o.cl], ops := q.0, lost := s.lost + (set op | op in q.1))
  }

  function HandlePosted(posted: Posted, cl: Client, plan: seq<int>): Outcome {
    match posted
    case OpenDone(c, handle, size) => OnOpenDone(c, cl, handle, size, plan)
    case ReadDone(c, data) => OnReadDone(c, cl, data, plan)
  }

  /** The client whose handler an event runs, and what the handler does. */
  function Actor(s: Server, e: Event): ClientId
    requires Enabled(s, e) && !e.Work?
  {
    if e.Deliver? then s.posted[0].owner else e.c
  }

  function Handled(s: Server, e: Event): Outcome
    requires Enabled(s, e) && !e.Connect? && !e.Work?
  {
    match e
    case Request(c, path, offset) => OnRequest(c, s.clients[c], path, offset)
    case BadRequest(c, message, plan) => OnBadRequest(c, s.clients[c], message, plan)
    case Writable(c, plan) => OnWritable(c, s.clients[c], plan)
    case Broken(c) => CloseClient(c, s.clients[c], [])
    case Deliver(plan) => HandlePosted(s.posted[0], s.clients[s.posted[0].owner], plan)
  }

  /** The server with a completion taken off, if that is what the event delivers. */
  function Before(s: Server, e: Event): Server {
    if e.Deliver? && s.posted != [] then s.(posted := s.posted[1..]) else s
  }

  /** One event; one that cannot occur changes nothing. */
  function Next(disk: Disk, s: Server, e: Event): Server {
    if !Enabled(s, e) then s
    else
      match e
      case Connect(c) => s.(clients := s.clients[c := NewClient()])
      case Work(n) =>
        var r := Exec(disk, s.thread, s.ops[0], n);
        s.(ops := s.ops[1..], thread := r.thread, posted := s.posted + r.posted)
      case _ => Apply(Before(s, e), Actor(s, e), Handled(s, e))
  }

  function Run(disk: Disk, s: Server, es: seq<Event>): Server
    decreases |es|
  {
    if es == [] then s else Run(disk, Next(disk, s, es[0]), es[1..])
  }

  // Each client's share.

  function OpsOf(ops: seq<FileOp>, c: ClientId): seq<FileOp> {
    if ops == [] then []
    else if ops[0].owner == c then [ops[0]] + OpsOf(ops[1..], c)
    else OpsOf(ops[1..], c)
  }

  function PostedOf(posted: seq<Posted>, c: ClientId): seq<Posted> {
    if posted == [] then []
    else if posted[0].owner == c then [posted[0]] + PostedOf(posted[1..], c)
    else PostedOf(posted[1..], c)
  }

  lemma {:induction false} OpsOfAppend(a: seq<FileOp>, b: seq<FileOp>, c: ClientId)
    ensures OpsOf(a + b, c) == OpsOf(a, c) + OpsOf(b, c)
  {
    if a == [] {
      assert a + b == b;
    } else {
      OpsOfAppend(a[1..], b, c);
      assert (a + b)[1..] == a[1..] + b;
      assert (a + b)[0] == a[0];
    }
  }

  lemma {:induction false} PostedOfAppend(a: seq<Posted>, b: seq<Posted>, c: ClientId)
    ensures PostedOf(a + b, c) == PostedOf(a, c) + PostedOf(b, c)
  {
    if a == [] {
      assert a + b == b;
    } else {
      assert (a + b)[1..] == a[1..] + b;
      PostedOfAppend(a[1..], b, c);
    }
  }

  function LostOf(lost: set<FileOp>, c: ClientId): set<FileOp> { set op | op in lost && op.owner == c }

  function ViewOf(s: Server, c: ClientId): View
    requires c in s.clients
  {
    View(s.clients[c], OpsOf(s.ops, c), PostedOf(s.posted, c), Registered(s.thread, c), LostOf(s.lost, c))
  }

  /** Nothing is under way for, and nothing is left of, a client that never connected. */
  ghost predicate Unknown(s: Server, c: ClientId) {
    && OpsOf(s.ops, c) == [] && PostedOf(s.posted, c) == []
    && Registered(s.thread, c) == {} && LostOf(s.lost, c) == {}
  }

  /** The invariant of the whole server. */
  ghost predicate Good(disk: Disk, s: Server) {
    && HandlesInv(disk, s.thread)
    && (forall c :: c in s.clients ==> ClientInv(disk, c, ViewOf(s, c)))
    && (forall c :: c !in s.clients ==> Unknown(s, c))
  }

  // The file thread.

  lemma RegisteredElsewhere(t: Thread, p: Path, h: Handle, c: ClientId, d: ClientId)
    requires d != c
    requires h.operators - {c} == (if p in t.files then t.files[p].operators else {}) - {c}
    ensures Registered(t.(files := t.files[p := h]), d) == Registered(t, d)
  {
    assert d in h.operators <==> d in h.operators - {c};
    assert p in t.files ==> (d in t.files[p].operators <==> d in t.files[p].operators - {c});
  }

  /** Whatever is at the head of the queue finds what it needs: a read its initiator registered on
      an open file, a close of a handle an open file to let go of. */
  lemma OpFindsItsFile(disk: Disk, t: Thread, v: View, c: ClientId)
    requires HandlesInv(disk, t) && ClientInv(disk, c, v) && v.reg == Registered(t, c) && v.ops != []
    ensures match v.ops[0]
            case Open(_, _) => true
            case Read(_, p, offset, size) =>
              p in t.files && c in t.files[p].operators && t.files[p].open && p in disk
              && offset + size <= |disk[p]| && size > 0
            case Close(_, h) =>
              h.Some? ==> h.value in t.files && c in t.files[h.value].operators && t.files[h.value].open
  {
    hide StreamInv;
    assert StreamInv(disk, v.cl);
    if v.ops[0].Read? {
      assert v.ops[0] == TheRead(c, v.cl) && v.cl.reading && v.cl.path in v.reg;
      ReadInRange(disk, v.cl);
    } else if v.ops[0].Close? && v.ops[0].handle.Some? {
      assert v.ops[0] == TheClose(c, v.cl) && v.cl.path in v.reg;
    }
  }

  lemma ReadInRange(disk: Disk, cl: Client)
    requires StreamInv(disk, cl) && PipelineInv(cl) && cl.reading
    ensures cl.path in disk && 0 < BlockSize(cl) && cl.curPos + BlockSize(cl) <= |disk[cl.path]|
  {
  }

  /** Executing the operation at the head of the queue keeps the shared handles counted, and keeps
      the invariant of the client that queued it. */
  lemma ExecKeeps(disk: Disk, t: Thread, v: View, c: ClientId, n: nat)
    requires HandlesInv(disk, t) && ClientInv(disk, c, v) && v.reg == Registered(t, c) && v.ops != []
    ensures var r := Exec(disk, t, v.ops[0], n);
      && HandlesInv(disk, r.thread)
      && PostedOf(r.posted, c) == r.posted
      && ClientInv(disk, c, v.(ops := v.ops[1..], posted := v.posted + r.posted, reg := Registered(r.thread, c)))
  {
    hide StreamInv, PipelineInv, FlagsInv;
    OpFindsItsFile(disk, t, v, c);
    match v.ops[0]
    case Open(_, p) => OpenKeeps(disk, t, v, c, n);
    case Read(_, p, offset, size) => ReadKeeps(disk, t, v, c, n);
    case Close(_, h) =>
      if h.Some? {
        HandleClosed(disk, t, v, c, n);
      } else {
        NullClosed(disk, t, v, c, n);
      }
  }

  lemma OpenKeeps(disk: Disk, t: Thread, v: View, c: ClientId, n: nat)
    requires HandlesInv(disk, t) && Phase(disk, c, v) && v.reg == Registered(t, c) && v.ops != [] && v.ops[0].Open?
    ensures var r := Exec(disk, t, v.ops[0], n);
      && HandlesInv(disk, r.thread)
      && PostedOf(r.posted, c) == r.posted
      && Phase(disk, c, v.(ops := v.ops[1..], posted := v.posted + r.posted, reg := Registered(r.thread, c)))
  {
    assert OpenQueued(c, v);
    var r := Exec(disk, t, v.ops[0], n);
    hide AtRest, ReadQueued, ReadPosted, CloseQueued, NullQueued, OpenLost, ReadLost, CloseLost;
    assert OpenPosted(disk, c, v.(ops := v.ops[1..], posted := v.posted + r.posted, reg := Registered(r.thread, c)));
  }

  lemma ReadKeeps(disk: Disk, t: Thread, v: View, c: ClientId, n: nat)
    requires HandlesInv(disk, t) && Phase(disk, c, v) && v.reg == Registered(t, c) && v.ops != [] && v.ops[0].Read?
    requires var op := v.ops[0];
      op.path in t.files && c in t.files[op.path].operators && t.files[op.path].open && op.path in disk
    ensures var r := Exec(disk, t, v.ops[0], n);
      && HandlesInv(disk, r.thread)
      && PostedOf(r.posted, c) == r.posted
      && Phase(disk, c, v.(ops := v.ops[1..], posted := v.posted + r.posted, reg := Registered(r.thread, c)))
  {
    assert v.ops[0] == TheRead(c, v.cl);
    var r := Exec(disk, t, v.ops[0], n);
    var w := v.(ops := v.ops[1..], posted := v.posted + r.posted, reg := Registered(r.thread, c));
    assert Answered(disk, c, w);
    if ReadQueued(c, v) {
      assert ReadPosted(disk, c, w);
    } else {
      assert CloseLost(disk, c, w);
    }
  }

  lemma HandleClosed(disk: Disk, t: Thread, v: View, c: ClientId, n: nat)
    requires HandlesInv(disk, t) && Phase(disk, c, v) && v.reg == Registered(t, c)
    requires v.ops != [] && v.ops[0].Close? && v.ops[0].handle.Some?
    requires var p := v.ops[0].handle.value; p in t.files && c in t.files[p].operators && t.files[p].open
    ensures var r := Exec(disk, t, v.ops[0], n);
      && HandlesInv(disk, r.thread)
      && PostedOf(r.posted, c) == r.posted
      && Phase(disk, c, v.(ops := v.ops[1..], posted := v.posted + r.posted, reg := Registered(r.thread, c)))
  {
    assert v.ops[0] == TheClose(c, v.cl) && v.reg == {v.cl.path};
    var r := Exec(disk, t, v.ops[0], n);
    var w := v.(ops := v.ops[1..], posted := v.posted + r.posted, reg := Registered(r.thread, c));
    assert forall q :: q in w.reg ==> q in v.reg && q != v.cl.path;
    assert w.reg == {} && w.posted == v.posted;
    hide HandlesInv, Registered, Exec;
    ClosedPhase(disk, c, v, w);
  }

  lemma ClosedPhase(disk: Disk, c: ClientId, v: View, w: View)
    requires Phase(disk, c, v) && v.ops != [] && v.ops[0] == TheClose(c, v.cl)
    requires w == v.(ops := v.ops[1..], reg := {})
    ensures Phase(disk, c, w)
  {
    assert w.ops == [] || w.ops == [NullClose(c)];
    assert ReadPosted(disk, c, v) ==> ReadPosted(disk, c, w);
    assert CloseQueued(c, v) ==> AtRest(c, w);
    assert NullQueued(c, v) ==> NullQueued(c, w);
    assert ReadLost(c, v) ==> ReadLost(c, w);
  }

  lemma NullClosed(disk: Disk, t: Thread, v: View, c: ClientId, n: nat)
    requires HandlesInv(disk, t) && Phase(disk, c, v) && v.reg == Registered(t, c)
    requires v.ops != [] && v.ops[0].Close? && v.ops[0].handle.None?
    ensures var r := Exec(disk, t, v.ops[0], n);
      && HandlesInv(disk, r.thread)
      && PostedOf(r.posted, c) == r.posted
      && Phase(disk, c, v.(ops := v.ops[1..], posted := v.posted + r.posted, reg := Registered(r.thread, c)))
  {
    assert NullQueued(c, v);
    var r := Exec(disk, t, v.ops[0], n);
    var w := v.(ops := v.ops[1..], posted := v.posted + r.posted, reg := Registered(r.thread, c));
    assert w.ops == [] && w.posted == [] && w.reg == v.reg;
    hide HandlesInv, Registered, Exec;
    assert v.lost == {} ==> AtRest(c, w);
    assert v.lost != {} ==> CloseLost(disk, c, w);
  }

  /** It does not touch what other clients are registered on. */
  lemma ExecElsewhere(disk: Disk, t: Thread, op: FileOp, n: nat, d: ClientId)
    requires d != op.owner
    ensures var r := Exec(disk, t, op, n);
            Registered(r.thread, d) == Registered(t, d) && PostedOf(r.posted, d) == []
  {
    var r := Exec(disk, t, op, n);
    var p := match op
             case Read(_, p, _, _) => p
             case Open(_, p) => p
             case Close(_, h) => if h.Some? then h.value else "";
    if r.thread.files != t.files {
      RegisteredElsewhere(t, p, r.thread.files[p], op.owner, d);
      assert r.thread.files == t.files[p := r.thread.files[p]];
    }
  }

  // One event, then all runs.

  /** What an event pushes into the op queue. */
  function Pushed(s: Server, e: Event): seq<FileOp> {
    if Enabled(s, e) && !e.Connect? && !e.Work? then Handled(s, e).ops else []
  }

  /** It pushes more than there is room for. */
  predicate Overfills(s: Server, e: Event) { |s.ops| + |Pushed(s, e)| > OP_QUEUE }

  /** Everything but the invariant of one client. */
  ghost predicate GoodBut(disk: Disk, s: Server, c: ClientId) {
    && c in s.clients
    && HandlesInv(disk, s.thread)
    && (forall d :: d in s.clients && d != c ==> ClientInv(disk, d, ViewOf(s, d)))
    && (forall d :: d !in s.clients ==> Unknown(s, d))
  }

  lemma {:induction false} OwnOps(ops: seq<FileOp>, c: ClientId, d: ClientId)
    requires forall i :: 0 <= i < |ops| ==> ops[i].owner == c
    ensures OpsOf(ops, d) == if d == c then ops else []
  {
    if ops != [] {
      OwnOps(ops[1..], c, d);
    }
  }

  /** One operation at most is pushed: it is queued, or refused. */
  lemma PushedOrRefused(ops: seq<FileOp>, more: seq<FileOp>)
    requires |more| <= 1
    ensures PushOps(ops, more) ==
            if more == [] || |ops| < OP_QUEUE then (ops + more, []) else (ops, more)
  {
    assert more[..|more|] == more && more[|more|..] == [] && more[..0] == [] && more[0..] == more && ops + [] == ops;
  }

  lemma AppliesInRoom(s: Server, c: ClientId, o: Outcome)
    requires |s.ops| + |o.ops| <= OP_QUEUE
    ensures Apply(s, c, o) == s.(clients := s.clients[c := o.cl], ops := s.ops + o.ops)
  {
    hide PushOps;
    assert s.lost + (set op: FileOp | op in []) == s.lost;
  }

  /** An event whose handler's push fits, as a whole. */
  lemma NextInRoom(disk: Disk, s: Server, e: Event, o: Outcome)
    requires Enabled(s, e) && !e.Connect? && !e.Work? && Handled(s, e) == o && |s.ops| + |o.ops| <= OP_QUEUE
    ensures Next(disk, s, e) == Before(s, e).(clients := s.clients[Actor(s, e) := o.cl], ops := s.ops + o.ops)
  {
    hide Handled, Apply;
    AppliesInRoom(Before(s, e), Actor(s, e), o);
  }

  lemma LostGrows(lost: set<FileOp>, more: seq<FileOp>, c: ClientId, d: ClientId)
    requires |more| <= 1 && forall op :: op in more ==> op.owner == c
    ensures LostOf(lost + (set op | op in more), d) == LostOf(lost, d) + if d == c && more != [] then {more[0]} else {}
  {
    if more == [] {
      assert (set op | op in more) == {};
    } else {
      assert (set op | op in more) == {more[0]};
    }
  }

  /** What the outcome of a handler changes in each client's share: its own operation is queued or
      lost, and nobody else notices. */
  lemma AppliedShares(s: Server, c: ClientId, o: Outcome, d: ClientId)
    requires OneOwn(o, c)
    ensures var t := Apply(s, c, o);
      && t.thread == s.thread && t.posted == s.posted
      && (d != c ==> OpsOf(t.ops, d) == OpsOf(s.ops, d) && LostOf(t.lost, d) == LostOf(s.lost, d))
      && (d == c ==>
            if o.ops == [] || |s.ops| < OP_QUEUE then
              OpsOf(t.ops, c) == OpsOf(s.ops, c) + o.ops && LostOf(t.lost, c) == LostOf(s.lost, c)
            else
              OpsOf(t.ops, c) == OpsOf(s.ops, c) && LostOf(t.lost, c) == LostOf(s.lost, c) + {o.ops[0]})
  {
    hide PushOps, OpsOf, LostOf;
    PushedOrRefused(s.ops, o.ops);
    LostGrows(s.lost, PushOps(s.ops, o.ops).1, c, d);
    QueueGrows(s.ops, o.ops, c, d);
    assert LostOf(s.lost, d) + {} == LostOf(s.lost, d);
  }

  lemma QueueGrows(ops: seq<FileOp>, more: seq<FileOp>, c: ClientId, d: ClientId)
    requires |more| <= 1 && forall op :: op in more ==> op.owner == c
    ensures OpsOf(ops + more, d) == if d == c then OpsOf(ops, d) + more else OpsOf(ops, d)
  {
    OpsOfAppend(ops, more, d);
    OwnOps(more, c, d);
    hide OpsOf;
    assert OpsOf(ops, d) + [] == OpsOf(ops, d);
  }

  /** A handler that keeps its own client's invariant keeps the server's, whether its push succeeds
      or not. */
  lemma ApplyKeeps(disk: Disk, s: Server, c: ClientId, o: Outcome)
    requires GoodBut(disk, s, c)
    requires OneOwn(o, c)
    requires ClientInv(disk, c, After(ViewOf(s, c), o))
    ensures Good(disk, Apply(s, c, o))
  {
    hide ClientInv, HandlesInv, Registered, OpsOf, PostedOf, LostOf, PushOps, OneOwn, ViewOf;
    var t := Apply(s, c, o);
    forall d | d in t.clients ensures ClientInv(disk, d, ViewOf(t, d)) {
      if d == c {
        OwnView(disk, s, c, o);
      } else {
        OtherView(s, c, o, d);
      }
    }
    forall d | d !in t.clients ensures Unknown(t, d) {
      AppliedShares(s, c, o, d);
    }
  }

  lemma OwnView(disk: Disk, s: Server, c: ClientId, o: Outcome)
    requires c in s.clients && OneOwn(o, c) && ClientInv(disk, c, After(ViewOf(s, c), o))
    ensures ClientInv(disk, c, ViewOf(Apply(s, c, o), c))
  {
    var t, v := Apply(s, c, o), After(ViewOf(s, c), o);
    AppliedShares(s, c, o, c);
    hide ClientInv, HandlesInv, Registered, OpsOf, PostedOf, LostOf, PushOps;
    if o.ops == [] || |s.ops| < OP_QUEUE {
      assert ViewOf(t, c) == v;
    } else {
      LosingKeeps(disk, c, v);
      assert v.ops[..|v.ops| - 1] == OpsOf(s.ops, c);
      assert ViewOf(t, c) == Dropped(v);
    }
  }

  lemma OtherView(s: Server, c: ClientId, o: Outcome, d: ClientId)
    requires d in s.clients && d != c && OneOwn(o, c)
    ensures ViewOf(Apply(s, c, o), d) == ViewOf(s, d)
  {
    AppliedShares(s, c, o, d);
    hide HandlesInv, Registered, OpsOf, PostedOf, LostOf, PushOps;
  }

  /** What is lost is what the queue refuses. */
  lemma LostStep(disk: Disk, s: Server, e: Event, op: FileOp)
    ensures op in Next(disk, s, e).lost <==> op in s.lost || (Overfills(s, e) && op in Pushed(s, e))
    ensures |s.ops| <= OP_QUEUE ==> |Next(disk, s, e).ops| <= OP_QUEUE
  {
    hide Handled, Exec, PushOps;
    if Enabled(s, e) && !e.Connect? && !e.Work? {
      HandledOwns(s, e);
      PushedOrRefused(s.ops, Handled(s, e).ops);
    }
  }

  /** What an event that is not file work makes of the queue. */
  lemma QueueAfter(disk: Disk, s: Server, e: Event)
    requires !e.Work?
    ensures Next(disk, s, e).ops == PushOps(s.ops, Pushed(s, e)).0 && Next(disk, s, e).thread == s.thread
  {
    PushedOrRefused(s.ops, []);
    hide Handled, PushOps;
    assert s.ops + [] == s.ops;
  }

  lemma OpsOfHead(ops: seq<FileOp>, d: ClientId)
    requires ops != []
    ensures OpsOf(ops, d) == if d == ops[0].owner then [ops[0]] + OpsOf(ops[1..], d) else OpsOf(ops[1..], d)
  {
  }

  lemma PostedOfHead(posted: seq<Posted>, d: ClientId)
    requires posted != []
    ensures PostedOf(posted, d) ==
            if d == posted[0].owner then [posted[0]] + PostedOf(posted[1..], d) else PostedOf(posted[1..], d)
  {
  }

  function Worked(s: Server, r: Executed): Server
    requires s.ops != []
  {
    s.(ops := s.ops[1..], thread := r.thread, posted := s.posted + r.posted)
  }

  /** What one operation changes in each client's share. */
  lemma WorkedViews(disk: Disk, s: Server, n: nat, d: ClientId)
    requires s.ops != [] && d in s.clients
    ensures var r := Exec(disk, s.thread, s.ops[0], n);
            var v := ViewOf(s, d);
            && (d != s.ops[0].owner ==> ViewOf(Worked(s, r), d) == v)
            && (d == s.ops[0].owner && PostedOf(r.posted, d) == r.posted ==>
                  v.ops != [] && v.ops[0] == s.ops[0]
                  && ViewOf(Worked(s, r), d)
                     == v.(ops := v.ops[1..], posted := v.posted + r.posted, reg := Registered(r.thread, d)))
  {
    hide Exec, Registered, OpsOf, PostedOf, LostOf;
    var r := Exec(disk, s.thread, s.ops[0], n);
    OpsOfHead(s.ops, d);
    PostedOfAppend(s.posted, r.posted, d);
    if d != s.ops[0].owner { ExecElsewhere(disk, s.thread, s.ops[0], n, d); }
  }

  lemma WorkKeeps(disk: Disk, s: Server, n: nat)
    requires Good(disk, s) && s.ops != []
    ensures Good(disk, Worked(s, Exec(disk, s.thread, s.ops[0], n)))
  {
    hide ClientInv, Exec, Registered, HandlesInv, OpsOf, PostedOf, LostOf;
    var c := s.ops[0].owner;
    var r := Exec(disk, s.thread, s.ops[0], n);
    OpsOfHead(s.ops, c);
    ExecKeeps(disk, s.thread, ViewOf(s, c), c, n);
    forall d | d in s.clients ensures ClientInv(disk, d, ViewOf(Worked(s, r), d)) {
      WorkedViews(disk, s, n, d);
    }
    forall d | d !in s.clients ensures Unknown(Worked(s, r), d) {
      OpsOfHead(s.ops, d);
      PostedOfAppend(s.posted, r.posted, d);
      ExecElsewhere(disk, s.thread, s.ops[0], n, d);
    }
  }

  lemma ConnectKeeps(disk: Disk, s: Server, c: ClientId)
    requires Good(disk, s) && c !in s.clients
    ensures Good(disk, s.(clients := s.clients[c := NewClient()]))
  {
    var t := s.(clients := s.clients[c := NewClient()]);
    hide OpsOf, PostedOf, Registered, LostOf, HandlesInv, ClientInv;
    assert Unknown(s, c);
    forall d | d in t.clients ensures ClientInv(disk, d, ViewOf(t, d)) {
      if d == c {
        NewClientIsFine(disk, c);
      } else {
        assert ViewOf(t, d) == ViewOf(s, d);
      }
    }
  }

  lemma NewClientIsFine(disk: Disk, c: ClientId)
    ensures ClientInv(disk, c, View(NewClient(), [], [], {}, {}))
  {
    EmptyUnsent();
    assert AtRest(c, View(NewClient(), [], [], {}, {}));
  }

  lemma HandleKeeps(disk: Disk, c: ClientId, v: View, plan: seq<int>)
    requires ClientInv(disk, c, v) && v.posted != []
    ensures v.posted[0].owner == c
    ensures ClientInv(disk, c, After(Taken(v), HandlePosted(v.posted[0], v.cl, plan)))
  {
    assert v.posted[0].owner == c;
    hide OnOpenDone, OnReadDone, ClientInv;
    if v.posted[0].OpenDone? {
      OpenDoneKeeps(disk, c, v, plan);
    } else {
      ReadDoneKeeps(disk, c, v, plan);
    }
  }

  /** Every handler queues at most one operation, on behalf of its own client. */
  predicate OneOwn(o: Outcome, c: ClientId) { |o.ops| <= 1 && forall op :: op in o.ops ==> op.owner == c }

  lemma ClosersOwn(c: ClientId, cl: Client, plan: seq<int>)
    ensures OneOwn(CloseClient(c, cl, plan), c) && OneOwn(StartRead(c, cl, plan), c) && OneOwn(Continue(c, cl, plan), c)
  {
  }

  lemma RepliesOwn(c: ClientId, cl: Client, reply: Block, plan: seq<int>)
    ensures OneOwn(Refuse(c, cl, reply, plan), c) && OneOwn(OnWritable(c, cl, plan), c)
  {
    hide CloseClient, Continue, Sent, OneOwn, PlanLeft;
    var queued := Push(cl.(waitingClose := true, head := reply), reply);
    ClosersOwn(c, Sent(queued, plan), PlanLeft(queued, plan));
    ClosersOwn(c, Sent(cl, plan), PlanLeft(cl, plan));
    NothingOwned(Sent(queued, plan), PlanLeft(queued, plan), c);
  }

  lemma NothingOwned(cl: Client, plan: seq<int>, c: ClientId)
    ensures OneOwn(Outcome(cl, [], plan), c)
  {
  }

  lemma CompletionsOwn(posted: Posted, cl: Client, plan: seq<int>)
    ensures OneOwn(HandlePosted(posted, cl, plan), posted.owner)
  {
    hide CloseClient, Continue, Sent, PlanLeft, StartRead, Refuse, ReplyHead, NotFoundReply;
    match posted
    case OpenDone(c, handle, size) =>
      RepliesOwn(c, cl, NotFoundReply(), plan);
      if handle.Some? {
        var head := ReplyHead(cl.reqPos, size);
        var queued := Push(cl.(handle := handle, fileSize := size, started := true, head := head), head);
        ClosersOwn(c, Sent(queued, plan), PlanLeft(queued, plan));
      }
    case ReadDone(c, data) =>
      if data.Some? {
        var queued := Push(cl.(reading := false), data.value);
        var sent := Sent(queued, plan);
        ClosersOwn(c, sent.(curPos := sent.curPos + |data.value|), PlanLeft(queued, plan));
      }
  }

  lemma HandledOwns(s: Server, e: Event)
    requires Enabled(s, e) && !e.Connect? && !e.Work?
    ensures OneOwn(Handled(s, e), Actor(s, e))
  {
    hide HandlePosted, OnWritable, Refuse, CloseClient, OneOwn, BadRequestReply;
    match e
    case Request(c, path, offset) => OpenIsOwn(c, s.clients[c], path, offset);
    case BadRequest(c, message, plan) =>
      RepliesOwn(c, s.clients[c].(requested := true), BadRequestReply(message), plan);
    case Writable(c, plan) => RepliesOwn(c, s.clients[c], BadRequestReply([]), plan);
    case Broken(c) => ClosersOwn(c, s.clients[c], []);
    case Deliver(plan) => CompletionsOwn(s.posted[0], s.clients[s.posted[0].owner], plan);
  }

  lemma OpenIsOwn(c: ClientId, cl: Client, path: Path, offset: nat)
    ensures OneOwn(OnRequest(c, cl, path, offset), c)
  {
  }

  /** Every handler keeps the invariant of its client. */
  lemma HandledKeeps(disk: Disk, s: Server, e: Event)
    requires Good(disk, s) && Enabled(s, e) && !e.Connect? && !e.Work?
    ensures GoodBut(disk, Before(s, e), Actor(s, e))
    ensures ClientInv(disk, Actor(s, e), After(ViewOf(Before(s, e), Actor(s, e)), Handled(s, e)))
  {
    hide ClientInv, HandlesInv, Registered, OpsOf, PostedOf, LostOf;
    hide OnRequest, OnBadRequest, OnWritable, CloseClient, HandlePosted;
    var c := Actor(s, e);
    var v := ViewOf(s, c);
    match e
    case Request(_, path, offset) => RequestKeeps(disk, c, v, path, offset);
    case BadRequest(_, message, plan) => BadRequestKeeps(disk, c, v, message, plan);
    case Writable(_, plan) => WritableKeeps(disk, c, v, plan);
    case Broken(_) => CloseKeeps(disk, c, v, []);
    case Deliver(plan) =>
      DeliveredShares(disk, s, plan);
      HandleKeeps(disk, c, v, plan);
  }

  lemma DeliveredShares(disk: Disk, s: Server, plan: seq<int>)
    requires Good(disk, s) && Enabled(s, Deliver(plan))
    ensures var c, u := s.posted[0].owner, Before(s, Deliver(plan));
      && GoodBut(disk, u, c)
      && ViewOf(s, c).posted != [] && ViewOf(s, c).posted[0] == s.posted[0]
      && ViewOf(u, c) == Taken(ViewOf(s, c))
  {
    hide ClientInv, HandlesInv, Registered, OpsOf, PostedOf, LostOf;
    var c, u := s.posted[0].owner, Before(s, Deliver(plan));
    PostedOfHead(s.posted, c);
    forall d | d != c ensures PostedOf(u.posted, d) == PostedOf(s.posted, d) {
      PostedOfHead(s.posted, d);
    }
    forall d | d in u.clients && d != c ensures ClientInv(disk, d, ViewOf(u, d)) {
      assert ViewOf(u, d) == ViewOf(s, d);
    }
    assert forall d :: d !in s.clients ==> Unknown(s, d);
  }

  /** Every event keeps the invariant, with no condition on it: a full queue that loses operations,
      reads that fail and peers that go away at any time included. */
  lemma NextKeeps(disk: Disk, s: Server, e: Event)
    requires Good(disk, s)
    ensures Good(disk, Next(disk, s, e))
  {
    hide Good, GoodBut, Handled, Exec, Apply, Before, ViewOf;
    if Enabled(s, e) {
      match e
      case Connect(c) => ConnectKeeps(disk, s, c);
      case Work(n) => WorkKeeps(disk, s, n);
      case _ =>
        HandledKeeps(disk, s, e);
        HandledOwns(s, e);
        ApplyKeeps(disk, Before(s, e), Actor(s, e), Handled(s, e));
    }
  }

  /** Any number of clients, any files, any interleaving: the invariant holds throughout. */
  lemma {:induction false} RunKeeps(disk: Disk, s: Server, es: seq<Event>)
    requires Good(disk, s)
    ensures Good(disk, Run(disk, s, es))
    decreases |es|
  {
    hide Next, Good;
    if es != [] {
      NextKeeps(disk, s, es[0]);
      RunKeeps(disk, Next(disk, s, es[0]), es[1..]);
    }
  }

  lemma InitialIsGood(disk: Disk)
    ensures Good(disk, INITIAL)
  {
  }

  /** The client on whose behalf an event may queue operations. */
  function Actors(s: Server, e: Event): set<ClientId> {
    if e.Connect? || e.Work? then {}
    else if !e.Deliver? then {e.c}
    else if s.posted == [] then {}
    else {s.posted[0].owner}
  }

  /** An event changes nothing in the share of a client it does not concern. */
  lemma OthersUntouched(disk: Disk, s: Server, e: Event, d: ClientId)
    requires d in s.clients && d !in Actors(s, e)
    requires e.Work? && s.ops != [] ==> s.ops[0].owner != d
    ensures d in Next(disk, s, e).clients && ViewOf(Next(disk, s, e), d) == ViewOf(s, d)
  {
    hide OpsOf, PostedOf, Registered, LostOf, Exec, PushOps, Handled;
    if Enabled(s, e) {
      match e
      case Connect(_) =>
      case Work(n) => WorkedViews(disk, s, n, d);
      case _ =>
        HandledOwns(s, e);
        AppliedShares(Before(s, e), Actor(s, e), Handled(s, e), d);
        if e.Deliver? { PostedOfHead(s.posted, d); }
    }
  }

  // The queue bound.

  /** The clients that have something queued. */
  function Queued(ops: seq<FileOp>): set<ClientId> {
    set i | 0 <= i < |ops| :: ops[i].owner
  }

  function Without(ops: seq<FileOp>, c: ClientId): (r: seq<FileOp>) {
    if ops == [] then []
    else if ops[0].owner == c then Without(ops[1..], c)
    else [ops[0]] + Without(ops[1..], c)
  }

  lemma {:induction false} WithoutSplits(ops: seq<FileOp>, c: ClientId)
    ensures |ops| == |OpsOf(ops, c)| + |Without(ops, c)|
    ensures Queued(Without(ops, c)) == Queued(ops) - {c}
  {
    if ops != [] {
      WithoutSplits(ops[1..], c);
      QueuedCons(ops);
      if ops[0].owner != c {
        QueuedCons(Without(ops, c));
        assert Without(ops, c)[1..] == Without(ops[1..], c);
      }
    }
  }

  lemma {:induction false} OpsOfWithout(ops: seq<FileOp>, c: ClientId, d: ClientId)
    ensures OpsOf(Without(ops, c), d) == if d == c then [] else OpsOf(ops, d)
  {
    if ops != [] {
      OpsOfWithout(ops[1..], c, d);
      if ops[0].owner != c {
        assert Without(ops, c)[1..] == Without(ops[1..], c);
      }
    }
  }

  lemma QueuedCons(ops: seq<FileOp>)
    requires ops != []
    ensures Queued(ops) == {ops[0].owner} + Queued(ops[1..])
  {
    forall i | 0 <= i < |ops| ensures ops[i].owner in {ops[0].owner} + Queued(ops[1..]) {
      if i > 0 { assert ops[i] == ops[1..][i - 1]; }
    }
    forall i | 0 <= i < |ops| - 1 ensures ops[1..][i].owner in Queued(ops) {
      assert ops[1..][i] == ops[i + 1];
    }
  }

  /** With at most two operations a client, the queue is no longer than twice the clients in it. */
  lemma {:induction false} QueueBound(ops: seq<FileOp>)
    requires forall c :: |OpsOf(ops, c)| <= 2
    ensures |ops| <= 2 * |Queued(ops)|
    decreases |ops|
  {
    if ops != [] {
      var c := ops[0].owner;
      WithoutSplits(ops, c);
      var rest := Without(ops, c);
      forall d ensures |OpsOf(rest, d)| <= 2 {
        OpsOfWithout(ops, c, d);
      }
      assert c in Queued(ops);
      QueueBound(rest);
    }
  }

  const MAX_QUEUED_CLIENTS: nat := 128

  /** At most 128 clients have operations queued, the one that may queue another included. */
  predicate Roomy(s: Server, e: Event) {
    |Queued(s.ops) + Actors(s, e)| <= MAX_QUEUED_CLIENTS
  }

  lemma AtMostTwoOps(disk: Disk, c: ClientId, v: View)
    requires ClientInv(disk, c, v)
    ensures |v.ops| <= 2
  {
  }

  lemma QueuedAppend(a: seq<FileOp>, b: seq<FileOp>, c: ClientId)
    requires forall i :: 0 <= i < |b| ==> b[i].owner == c
    ensures Queued(a + b) <= Queued(a) + {c}
    ensures |Queued(a + b)| <= |Queued(a) + {c}|
  {
    SubsetSize(Queued(a + b), Queued(a) + {c});
  }

  lemma {:induction false} SubsetSize(a: set<ClientId>, b: set<ClientId>)
    requires a <= b
    ensures |a| <= |b|
  {
    if a != {} {
      var x :| x in a;
      SubsetSize(a - {x}, b - {x});
    }
  }

  /** A push included, no client has more than two operations queued. */
  lemma TwoOpsEach(disk: Disk, s: Server, e: Event, d: ClientId)
    requires Good(disk, s) && Pushed(s, e) != []
    ensures |OpsOf(s.ops + Pushed(s, e), d)| <= 2
  {
    HandledKeeps(disk, s, e);
    HandledOwns(s, e);
    hide Next, Handled, Enabled, ClientInv, HandlesInv, Registered, OpsOf, PostedOf, LostOf;
    var c, more := Actor(s, e), Handled(s, e).ops;
    OpsOfAppend(s.ops, more, d);
    OwnOps(more, c, d);
    if d == c {
      AtMostTwoOps(disk, c, After(ViewOf(Before(s, e), c), Handled(s, e)));
    } else if d in s.clients {
      AtMostTwoOps(disk, d, ViewOf(s, d));
    }
  }

  /** As long as no more than 128 clients have operations queued, there is room for what comes. */
  lemma RoomyFits(disk: Disk, s: Server, e: Event)
    requires Good(disk, s) && Roomy(s, e)
    requires |s.ops| <= OP_QUEUE
    ensures !Overfills(s, e)
  {
    if Pushed(s, e) != [] {
      HandledOwns(s, e);
      hide Handled, Enabled, Good, OpsOf, Queued;
      forall d ensures |OpsOf(s.ops + Pushed(s, e), d)| <= 2 {
        TwoOpsEach(disk, s, e, d);
      }
      QueueBound(s.ops + Pushed(s, e));
      QueuedAppend(s.ops, Pushed(s, e), Actor(s, e));
    }
  }
}
