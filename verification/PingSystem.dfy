/** Ping client and echo server together, any number of connections, over byte streams that may
    deliver any amount at any time. */
module PingSystem {
  import opened Streams
  import opened Frames
  import opened EchoServer
  import opened PingProtocol

  type Sock = nat

  /** One connection.  `started` are the packets the client has begun to send, `up` the bytes its
      `rt_send` took, `served` the bytes the server has read of them, `down` the bytes the server's
      `rt_send` took, `got` the bytes the client has read of those. */
  datatype Link = Link(started: seq<Frame>, up: seq<byte>, served: seq<byte>, down: seq<byte>, got: seq<byte>)

  /** `issued` counts all pings; `log[n - 1]` says where ping number `n` went; `missed` counts table
      lookups that found nothing.  The last two are history. */
  datatype System = System(links: map<Sock, Link>, table: Table, issued: nat, log: seq<(Sock, nat)>, missed: nat)

  const NO_LINKS := System(map[], map[], 0, [], 0)

  /** The packets answered so far on a connection. */
  function Answered(l: Link): seq<Frame> { Parse(CLIENT_MAX, l.got).frames }

  // The client's two sides of a connection.

  /** `send_ping_packet`: nothing while an earlier packet is still queued; otherwise some packets,
      each accepted whole except that the last may be cut short. */
  ghost predicate SendStep(l: Link, l': Link, fs: seq<Frame>, issued: nat) {
    && l' == l.(started := l.started + fs, up := l'.up)
    && l.up == Join(l.started)
    && Numbered(fs, issued + 1)
    && l.up <= l'.up <= Join(l'.started)
    && (fs != [] ==> Join(l.started + fs[..|fs| - 1]) <= l'.up)
  }

  /** `on_rtsocket_write`. */
  ghost predicate FlushStep(l: Link, l': Link) {
    l' == l.(up := l'.up) && l.up <= l'.up <= Join(l.started)
  }

  /** The numbers looked up for packets: what a packet of at least eight bytes says. */
  ghost predicate LookedUp(fs: seq<Frame>, ns: seq<nat>) {
    |ns| == |fs| && forall i :: 0 <= i < |fs| && |fs[i]| >= 8 ==> ns[i] == SeqOf(fs[i])
  }

  function NewFrames(got: seq<byte>, got': seq<byte>): seq<Frame> {
    var a, b := |Parse(CLIENT_MAX, got).frames|, Parse(CLIENT_MAX, got').frames;
    if a <= |b| then b[a..] else []
  }

  /** `on_rtsocket_read` of the client. */
  ghost predicate ReceiveStep(l: Link, l': Link, t: Table, t': Table, missed: nat, missed': nat, ns: seq<nat>) {
    && l' == l.(got := l'.got)
    && l.got <= l'.got <= l.down
    && LookedUp(NewFrames(l.got, l'.got), ns)
    && t' == Erased(t, ns)
    && missed' == missed + Missed(t, ns)
  }

  // The whole.

  ghost predicate Opens(s: System, s': System, k: Sock) {
    k !in s.links && s' == s.(links := s.links[k := Link([], [], [], [], [])])
  }

  ghost predicate Sends(s: System, s': System, k: Sock, l': Link, fs: seq<Frame>) {
    && k in s.links && SendStep(s.links[k], l', fs, s.issued)
    && s' == System(s.links[k := l'], Recorded(s.table, fs), s.issued + |fs|,
                    s.log + seq(|fs|, i requires 0 <= i < |fs| => (k, |s.links[k].started| + i)), s.missed)
  }

  ghost predicate Flushes(s: System, s': System, k: Sock, l': Link) {
    k in s.links && FlushStep(s.links[k], l') && s' == s.(links := s.links[k := l'])
  }

  /** The server: any echo server with a length limit of at least 1100. */
  ghost predicate Serves(max: nat, s: System, s': System, k: Sock, l': Link) {
    && k in s.links
    && var l := s.links[k];
    && EchoNext(max, l.served, l.down, l'.served, l'.down) && l'.served <= l.up
    && l' == l.(served := l'.served, down := l'.down)
    && s' == s.(links := s.links[k := l'])
  }

  ghost predicate Receives(s: System, s': System, k: Sock, l': Link, ns: seq<nat>) {
    && k in s.links
    && ReceiveStep(s.links[k], l', s.table, s'.table, s.missed, s'.missed, ns)
    && s' == s.(links := s.links[k := l'], table := s'.table, missed := s'.missed)
  }

  ghost predicate Next(max: nat, s: System, s': System) {
    || (exists k :: Opens(s, s', k))
    || (exists k, l', fs :: Sends(s, s', k, l', fs))
    || (exists k, l' :: Flushes(s, s', k, l'))
    || (exists k, l' :: Serves(max, s, s', k, l'))
    || (exists k, l', ns :: Receives(s, s', k, l', ns))
  }

  ghost predicate IsRun(max: nat, run: seq<System>) {
    && run != [] && run[0] == NO_LINKS
    && forall i :: 0 <= i < |run| - 1 ==> Next(max, run[i], run[i + 1])
  }

  // The invariant.

  ghost predicate LinkInv(max: nat, l: Link) {
    && (forall i :: 0 <= i < |l.started| ==> |l.started[i]| in PACKET_SIZES && FrameOk(CLIENT_MAX, l.started[i]))
    && l.up <= Join(l.started)
    && l.served <= l.up
    && EchoOk(max, l.served, l.down)
    && l.got <= l.down
  }

  function NumberOf(f: Frame): nat { if |f| >= 8 then SeqOf(f) else 0 }

  /** Every number belongs to exactly one packet of one connection: ping `m + 1` went to `log[m]`. */
  ghost predicate LogInv(s: System) {
    && |s.log| == s.issued
    && (forall k, i :: k in s.links && 0 <= i < |s.links[k].started| ==>
          var n := NumberOf(s.links[k].started[i]);
          1 <= n <= s.issued && s.log[n - 1] == (k, i))
    && (forall m :: 0 <= m < s.issued ==>
          && s.log[m].0 in s.links && s.log[m].1 < |s.links[s.log[m].0].started|
          && NumberOf(s.links[s.log[m].0].started[s.log[m].1]) == m + 1)
  }

  /** Ping number `n` has not been answered. */
  ghost predicate Unanswered(s: System, n: nat) {
    && 1 <= n <= |s.log| && s.log[n - 1].0 in s.links
    && s.log[n - 1].1 >= |Answered(s.links[s.log[n - 1].0])|
  }

  ghost predicate TableInv(s: System) {
    s.missed == 0 && forall n: nat :: n in s.table <==> Unanswered(s, n)
  }

  ghost predicate Inv(max: nat, s: System) {
    && (forall k :: k in s.links ==> LinkInv(max, s.links[k]))
    && LogInv(s) && TableInv(s)
  }

  lemma LimitsAgree(max: nat, fs: seq<Frame>)
    requires 1100 <= max
    requires forall i :: 0 <= i < |fs| ==> |fs[i]| in PACKET_SIZES && FrameOk(CLIENT_MAX, fs[i])
    ensures FramesOk(max, fs) && FramesOk(CLIENT_MAX, fs)
  {
  }

  /** Bytes travel to the server and back without loss or invention: what the client has been
      answered on a connection is a prefix of what it sent there. */
  lemma AnswersFollowPings(max: nat, l: Link)
    requires LinkInv(max, l) && 1100 <= max
    ensures Answered(l) <= l.started
  {
    LimitsAgree(max, l.started);
    hide Parse, Join, FrameOk;
    ParseOfPrefix(max, l.started, l.served);
    JoinMonotone(Parse(max, l.served).frames, l.started);
    ParseOfPrefix(CLIENT_MAX, l.started, l.got);
  }

  /** The books speak about the packets started, connection by connection. */
  ghost predicate SameStarted(s: System, s': System) {
    && s.links.Keys <= s'.links.Keys
    && (forall k :: k in s.links ==> s'.links[k].started == s.links[k].started)
    && (forall k :: k in s'.links && k !in s.links ==> s'.links[k].started == [])
  }

  lemma LogKept(s: System, s': System)
    requires LogInv(s) && SameStarted(s, s') && s'.log == s.log && s'.issued == s.issued
    ensures LogInv(s')
  {
    hide NumberOf;
    forall m | 0 <= m < s'.issued
      ensures s'.log[m].0 in s'.links && s'.log[m].1 < |s'.links[s'.log[m].0].started|
      ensures NumberOf(s'.links[s'.log[m].0].started[s'.log[m].1]) == m + 1
    {
      var k := s.log[m].0;
      assert s'.links[k].started == s.links[k].started;
    }
    forall k, i | k in s'.links && 0 <= i < |s'.links[k].started|
      ensures var n := NumberOf(s'.links[k].started[i]); 1 <= n <= s'.issued && s'.log[n - 1] == (k, i)
    {
      assert s'.links[k].started[i] == s.links[k].started[i];
    }
  }

  /** Steps that neither start a packet nor answer one leave the books alone. */
  lemma BooksKept(s: System, s': System, k: Sock, l': Link)
    requires LogInv(s) && TableInv(s) && s' == s.(links := s.links[k := l'])
    requires if k in s.links then l'.started == s.links[k].started && l'.got == s.links[k].got else l'.started == []
    ensures LogInv(s') && TableInv(s')
  {
    hide LogInv, TableInv;
    LogKept(s, s');
    TableKept(s, s', k);
  }

  lemma TableKept(s: System, s': System, k: Sock)
    requires LogInv(s) && TableInv(s)
    requires s'.log == s.log && s'.table == s.table && s'.missed == s.missed && s'.links.Keys == s.links.Keys + {k}
    requires forall j :: j in s.links && j != k ==> s'.links[j] == s.links[j]
    requires k in s.links ==> s'.links[k].got == s.links[k].got
    ensures TableInv(s')
  {
    hide LogInv, Unanswered;
    forall n: nat ensures n in s'.table <==> Unanswered(s', n) {
      SameAnswered(s, s', k, n);
    }
  }

  lemma SameAnswered(s: System, s': System, k: Sock, n: nat)
    requires LogInv(s) && s'.log == s.log && s'.links.Keys == s.links.Keys + {k}
    requires forall j :: j in s.links && j != k ==> s'.links[j] == s.links[j]
    requires k in s.links ==> s'.links[k].got == s.links[k].got
    ensures Unanswered(s, n) <==> Unanswered(s', n)
  {
    hide Parse;
    if 1 <= n <= |s.log| {
      assert s.log[n - 1].0 in s.links;
    }
  }

  lemma FreshLink(max: nat)
    ensures LinkInv(max, Link([], [], [], [], []))
  {
    assert Parse(max, []) == Parsed([], [], true);
  }

  lemma OpensKeeps(max: nat, s: System, s': System, k: Sock)
    requires Inv(max, s) && Opens(s, s', k)
    ensures Inv(max, s')
  {
    FreshLink(max);
    BooksKept(s, s', k, Link([], [], [], [], []));
    hide LinkInv, LogInv, TableInv;
  }

  lemma FlushesKeeps(max: nat, s: System, s': System, k: Sock, l': Link)
    requires Inv(max, s) && Flushes(s, s', k, l')
    ensures Inv(max, s')
  {
    BooksKept(s, s', k, l');
    assert LinkInv(max, s.links[k]);
    hide LogInv, TableInv, EchoOk, Join;
  }

  lemma ServesKeeps(max: nat, s: System, s': System, k: Sock, l': Link)
    requires Inv(max, s) && Serves(max, s, s', k, l')
    ensures Inv(max, s')
  {
    BooksKept(s, s', k, l');
    assert LinkInv(max, s.links[k]);
    hide LogInv, TableInv, EchoOk, Join;
  }

  /** Starting packets gives each the next number and records it. */
  lemma SendsKeepsLog(s: System, s': System, k: Sock, l': Link, fs: seq<Frame>)
    requires LogInv(s) && Sends(s, s', k, l', fs) && s'.issued < SEQ_SPACE
    ensures LogInv(s')
  {
    SendsKeepsEntries(s, s', k, l', fs);
    SendsKeepsNumbers(s, s', k, l', fs);
    hide SendStep, NumberOf, Recorded;
  }

  lemma SendsKeepsNumbers(s: System, s': System, k: Sock, l': Link, fs: seq<Frame>)
    requires LogInv(s) && Sends(s, s', k, l', fs) && s'.issued < SEQ_SPACE
    ensures forall j, i :: j in s'.links && 0 <= i < |s'.links[j].started| ==>
              var n := NumberOf(s'.links[j].started[i]); 1 <= n <= s'.issued && s'.log[n - 1] == (j, i)
  {
    NumbersOf(fs, s.issued);
    SendKeepsGot(s.links[k], l', fs, s.issued);
    hide SendStep, Numbered, NumberOf, SeqOf, Recorded;
    var l := s.links[k];
    forall j, i | j in s'.links && 0 <= i < |s'.links[j].started|
      ensures var n := NumberOf(s'.links[j].started[i]); 1 <= n <= s'.issued && s'.log[n - 1] == (j, i)
    {
      if j != k || i < |l.started| {
        assert s'.links[j].started[i] == s.links[j].started[i];
      } else {
        assert s'.links[k].started[i] == fs[i - |l.started|];
      }
    }
  }

  lemma SendsKeepsEntries(s: System, s': System, k: Sock, l': Link, fs: seq<Frame>)
    requires LogInv(s) && Sends(s, s', k, l', fs) && s'.issued < SEQ_SPACE
    ensures forall m :: 0 <= m < s'.issued ==>
              && s'.log[m].0 in s'.links && s'.log[m].1 < |s'.links[s'.log[m].0].started|
              && NumberOf(s'.links[s'.log[m].0].started[s'.log[m].1]) == m + 1
  {
    NumbersOf(fs, s.issued);
    SendKeepsGot(s.links[k], l', fs, s.issued);
    hide SendStep, Numbered, NumberOf, SeqOf, Recorded;
    var l := s.links[k];
    forall m | 0 <= m < s'.issued
      ensures s'.log[m].0 in s'.links && s'.log[m].1 < |s'.links[s'.log[m].0].started|
      ensures NumberOf(s'.links[s'.log[m].0].started[s'.log[m].1]) == m + 1
    {
      if m >= s.issued {
        var i := m - s.issued;
        assert s'.log[m] == (k, |l.started| + i);
        assert l'.started[|l.started| + i] == fs[i];
      } else {
        var j, i := s.log[m].0, s.log[m].1;
        assert s'.log[m] == (j, i);
        assert s'.links[j].started[i] == s.links[j].started[i];
      }
    }
  }

  lemma NumbersOf(fs: seq<Frame>, issued: nat)
    requires Numbered(fs, issued + 1) && issued + |fs| < SEQ_SPACE
    ensures forall i :: 0 <= i < |fs| ==> |fs[i]| >= 8 && NumberOf(fs[i]) == SeqOf(fs[i]) == issued + 1 + i
  {
    forall i | 0 <= i < |fs| ensures |fs[i]| >= 8 && NumberOf(fs[i]) == SeqOf(fs[i]) == issued + 1 + i {
      assert PingFrame(fs[i], (issued + 1 + i) % SEQ_SPACE);
    }
  }

  /** New packets are unanswered, and nothing else changes. */
  lemma NewAreUnanswered(s: System, s': System, k: Sock, l': Link, fs: seq<Frame>, n: nat)
    requires Sends(s, s', k, l', fs) && |s.log| == s.issued
    requires |Answered(s.links[k])| <= |s.links[k].started|
    ensures Unanswered(s', n) <==> Unanswered(s, n) || s.issued < n <= s'.issued
  {
    SendKeepsGot(s.links[k], l', fs, s.issued);
    hide SendStep, Parse, Recorded;
    if s.issued < n <= s'.issued {
      assert s'.log[n - 1] == (k, |s.links[k].started| + (n - 1 - s.issued));
    } else if 1 <= n <= s.issued {
      assert s'.log[n - 1] == s.log[n - 1];
    }
  }

  lemma SendsKeepsTable(max: nat, s: System, s': System, k: Sock, l': Link, fs: seq<Frame>)
    requires LogInv(s) && TableInv(s) && Sends(s, s', k, l', fs) && s'.issued < SEQ_SPACE
    requires |Answered(s.links[k])| <= |s.links[k].started|
    ensures TableInv(s')
  {
    hide Join, FrameOk, SeqOf, Recorded, Parse, NumberOf, LogInv, Answered, Unanswered, Numbered;
    assert Numbered(fs, s.issued + 1) && |s.log| == s.issued by { LogLength(s); }
    NumbersOf(fs, s.issued);
    RecordedKeys(s.table, fs);
    assert s'.table == Recorded(s.table, fs) && s'.issued == s.issued + |fs| && s'.missed == s.missed;
    hide SendStep;
    forall n: nat ensures n in s'.table <==> Unanswered(s', n) {
      assert n in s.table <==> Unanswered(s, n);
      NewAreUnanswered(s, s', k, l', fs, n);
      if s.issued < n <= s'.issued {
        assert SeqOf(fs[n - s.issued - 1]) == n;
      }
    }
  }

  lemma LogLength(s: System)
    requires LogInv(s)
    ensures |s.log| == s.issued
  {
  }

  lemma SendKeepsGot(l: Link, l': Link, fs: seq<Frame>, issued: nat)
    requires SendStep(l, l', fs, issued)
    ensures l'.got == l.got && l'.started == l.started + fs
  {
  }

  lemma SendsKeepsLink(max: nat, l: Link, l': Link, fs: seq<Frame>, issued: nat)
    requires LinkInv(max, l) && SendStep(l, l', fs, issued)
    ensures LinkInv(max, l')
  {
    hide EchoOk, Join, SeqOf;
    forall i | 0 <= i < |l'.started|
      ensures |l'.started[i]| in PACKET_SIZES && FrameOk(CLIENT_MAX, l'.started[i])
    {
      if i >= |l.started| {
        assert l'.started[i] == fs[i - |l.started|];
        assert PingFrame(fs[i - |l.started|], (issued + 1 + (i - |l.started|)) % SEQ_SPACE);
      }
    }
  }

  lemma SendsKeeps(max: nat, s: System, s': System, k: Sock, l': Link, fs: seq<Frame>)
    requires Inv(max, s) && Sends(s, s', k, l', fs) && s'.issued < SEQ_SPACE && 1100 <= max
    ensures Inv(max, s')
  {
    AnswersFollowPings(max, s.links[k]);
    SendsKeepsLog(s, s', k, l', fs);
    SendsKeepsTable(max, s, s', k, l', fs);
    SendsKeepsLink(max, s.links[k], l', fs, s.issued);
    hide LinkInv, LogInv, TableInv, SendStep;
  }

  /** The packets answered by a read are the next ones sent on that connection. */
  lemma NewAnswers(max: nat, l: Link, l': Link)
    requires LinkInv(max, l) && 1100 <= max
    requires l' == l.(got := l'.got) && l.got <= l'.got <= l.down
    ensures LinkInv(max, l')
    ensures |Answered(l)| <= |Answered(l')| <= |l.started|
    ensures NewFrames(l.got, l'.got) == l.started[|Answered(l)|..|Answered(l')|]
  {
    hide Parse, Join, EchoOk;
    assert LinkInv(max, l');
    hide LinkInv;
    AnswersFollowPings(max, l);
    AnswersFollowPings(max, l');
    ParseMonotone(CLIENT_MAX, l.got, l'.got);
  }

  lemma LookupsAreNext(l: Link, a: nat, b: nat, ns: seq<nat>)
    requires a <= b <= |l.started| && LookedUp(l.started[a..b], ns)
    requires forall i :: 0 <= i < |l.started| ==> |l.started[i]| >= 8
    ensures |ns| == b - a && forall i :: 0 <= i < |ns| ==> ns[i] == NumberOf(l.started[a + i])
  {
    hide SeqOf;
    forall i | 0 <= i < |ns| ensures ns[i] == NumberOf(l.started[a + i]) {
      assert l.started[a..b][i] == l.started[a + i];
    }
  }

  lemma LookupsAreLogged(s: System, k: Sock, a: nat, ns: seq<nat>)
    requires LogInv(s) && k in s.links && a + |ns| <= |s.links[k].started|
    requires forall i :: 0 <= i < |ns| ==> ns[i] == NumberOf(s.links[k].started[a + i])
    ensures forall i :: 0 <= i < |ns| ==> 1 <= ns[i] <= s.issued && s.log[ns[i] - 1] == (k, a + i)
    ensures forall n: nat :: 1 <= n <= s.issued && s.log[n - 1].0 == k && a <= s.log[n - 1].1 < a + |ns| ==> n in ns
  {
    hide NumberOf;
    forall n: nat | 1 <= n <= s.issued && s.log[n - 1].0 == k && a <= s.log[n - 1].1 < a + |ns| ensures n in ns {
      assert ns[s.log[n - 1].1 - a] == n;
    }
  }

  /** Looking up the packets next in line finds them all, and what is left is what comes after. */
  lemma TableAfterLookups(s: System, k: Sock, a: nat, ns: seq<nat>)
    requires TableInv(s) && k in s.links && a == |Answered(s.links[k])|
    requires |s.log| == s.issued
    requires forall i :: 0 <= i < |ns| ==> 1 <= ns[i] <= s.issued && s.log[ns[i] - 1] == (k, a + i)
    requires forall n: nat :: 1 <= n <= s.issued && s.log[n - 1].0 == k && a <= s.log[n - 1].1 < a + |ns| ==> n in ns
    ensures Missed(s.table, ns) == 0
    ensures forall n: nat :: n in Erased(s.table, ns) <==>
              Unanswered(s, n) && !(s.log[n - 1].0 == k && s.log[n - 1].1 < a + |ns|)
  {
    hide Answered, Erased, Missed;
    forall i | 0 <= i < |ns| ensures ns[i] in s.table {
      assert Unanswered(s, ns[i]);
    }
    forall i, j | 0 <= i < j < |ns| ensures ns[i] != ns[j] {
      assert s.log[ns[i] - 1] == (k, a + i) && s.log[ns[j] - 1] == (k, a + j);
    }
    NothingMissed(s.table, ns);
    ErasedKeys(s.table, ns);
    forall n: nat
      ensures n in Erased(s.table, ns) <==> Unanswered(s, n) && !(s.log[n - 1].0 == k && s.log[n - 1].1 < a + |ns|)
    {
      assert n in s.table <==> Unanswered(s, n);
      hide TableInv;
      if Unanswered(s, n) { LookedUpAre(s, k, a, ns, n); }
    }
  }

  lemma LookedUpAre(s: System, k: Sock, a: nat, ns: seq<nat>, n: nat)
    requires 1 <= n <= |s.log| == s.issued
    requires forall i :: 0 <= i < |ns| ==> 1 <= ns[i] <= s.issued && s.log[ns[i] - 1] == (k, a + i)
    requires forall n: nat :: 1 <= n <= s.issued && s.log[n - 1].0 == k && a <= s.log[n - 1].1 < a + |ns| ==> n in ns
    ensures n in ns <==> s.log[n - 1].0 == k && a <= s.log[n - 1].1 < a + |ns|
  {
  }

  /** Answers on one connection leave the other connections' packets unanswered. */
  lemma StillUnanswered(s: System, s': System, k: Sock, l': Link, n: nat)
    requires k in s.links && s'.links == s.links[k := l'] && s'.log == s.log
    requires |Answered(s.links[k])| <= |Answered(l')|
    ensures Unanswered(s', n) <==>
              Unanswered(s, n) && !(s.log[n - 1].0 == k && s.log[n - 1].1 < |Answered(l')|)
  {
    hide Answered;
  }

  lemma ReceivesKeepsTable(s: System, s': System, k: Sock, l': Link, ns: seq<nat>)
    requires LogInv(s) && TableInv(s) && Receives(s, s', k, l', ns)
    requires forall i :: 0 <= i < |s.links[k].started| ==> |s.links[k].started[i]| >= 8
    requires |Answered(s.links[k])| <= |Answered(l')| <= |s.links[k].started|
    requires NewFrames(s.links[k].got, l'.got) == s.links[k].started[|Answered(s.links[k])|..|Answered(l')|]
    ensures TableInv(s')
  {
    var l := s.links[k];
    var a, b := |Answered(l)|, |Answered(l')|;
    assert |s.log| == s.issued && s.missed == 0;
    hide LogInv, Parse, Answered, NewFrames, Erased, Missed, LookedUp, NumberOf, Unanswered;
    assert LookedUp(l.started[a..b], ns) && s'.links == s.links[k := l'];
    assert s'.table == Erased(s.table, ns) && s'.missed == s.missed + Missed(s.table, ns);
    hide Receives, TableInv;
    LookupsAreNext(l, a, b, ns);
    LookupsAreLogged(s, k, a, ns);
    TableAfterLookups(s, k, a, ns);
    assert |ns| == b - a;
    forall n: nat ensures n in s'.table <==> Unanswered(s', n) {
      assert n in s'.table <==> Unanswered(s, n) && !(s.log[n - 1].0 == k && s.log[n - 1].1 < b);
      StillUnanswered(s, s', k, l', n);
    }
    TableSays(s');
  }

  lemma TableSays(s: System)
    requires s.missed == 0 && forall n: nat :: n in s.table <==> Unanswered(s, n)
    ensures TableInv(s)
  {
  }

  lemma ReceivesKeeps(max: nat, s: System, s': System, k: Sock, l': Link, ns: seq<nat>)
    requires Inv(max, s) && Receives(s, s', k, l', ns) && 1100 <= max
    ensures Inv(max, s')
  {
    hide LinkInv, LogInv, TableInv, Parse, Answered, NewFrames, Erased, Missed, LookedUp, Join, FrameOk;
    NewAnswers(max, s.links[k], l');
    LongEnough(max, s.links[k]);
    LogKept(s, s');
    ReceivesKeepsTable(s, s', k, l', ns);
  }

  lemma LongEnough(max: nat, l: Link)
    requires LinkInv(max, l)
    ensures forall i :: 0 <= i < |l.started| ==> |l.started[i]| >= 8
  {
  }

  lemma IssuedGrows(max: nat, s: System, s': System)
    requires Next(max, s, s')
    ensures s.issued <= s'.issued
  {
  }

  lemma NextKeeps(max: nat, s: System, s': System)
    requires Inv(max, s) && Next(max, s, s') && s'.issued < SEQ_SPACE && 1100 <= max
    ensures Inv(max, s')
  {
    hide Inv, Opens, Sends, Flushes, Serves, Receives;
    if k :| Opens(s, s', k) {
      OpensKeeps(max, s, s', k);
    } else if k, l', fs :| Sends(s, s', k, l', fs) {
      SendsKeeps(max, s, s', k, l', fs);
    } else if k, l' :| Flushes(s, s', k, l') {
      FlushesKeeps(max, s, s', k, l');
    } else if k, l' :| Serves(max, s, s', k, l') {
      ServesKeeps(max, s, s', k, l');
    } else {
      var k, l', ns :| Receives(s, s', k, l', ns);
      ReceivesKeeps(max, s, s', k, l', ns);
    }
  }

  /** Every unanswered packet's size is in the table. */
  ghost predicate SizesInv(s: System) {
    forall k, i :: k in s.links && 0 <= i < |s.links[k].started| && NumberOf(s.links[k].started[i]) in s.table ==>
      s.table[NumberOf(s.links[k].started[i])] == |s.links[k].started[i]|
  }

  /** A recorded packet, or an entry that was there before, by its number. */
  lemma SizeIsKnown(table: Table, fs: seq<Frame>, issued: nat, n: nat)
    requires forall i :: 0 <= i < |fs| ==> |fs[i]| >= 8 && SeqOf(fs[i]) == issued + 1 + i
    requires n in Recorded(table, fs)
    ensures n <= issued ==> n in table && Recorded(table, fs)[n] == table[n]
    ensures issued < n <= issued + |fs| ==> Recorded(table, fs)[n] == |fs[n - issued - 1]|
  {
    hide SeqOf, Recorded;
    RecordedKeys(table, fs);
    RecordedSizes(table, fs, n);
  }

  lemma SendsKeepsSizes(s: System, s': System, k: Sock, l': Link, fs: seq<Frame>)
    requires LogInv(s) && SizesInv(s) && Sends(s, s', k, l', fs) && s'.issued < SEQ_SPACE
    ensures SizesInv(s')
  {
    NumbersOf(fs, s.issued);
    SendKeepsGot(s.links[k], l', fs, s.issued);
    var l := s.links[k];
    assert s'.table == Recorded(s.table, fs) && s'.links == s.links[k := l'];
    hide Sends, Numbered, NumberOf, SeqOf, Recorded, LogInv;
    forall j, i | j in s'.links && 0 <= i < |s'.links[j].started| && NumberOf(s'.links[j].started[i]) in s'.table
      ensures s'.table[NumberOf(s'.links[j].started[i])] == |s'.links[j].started[i]|
    {
      var f := s'.links[j].started[i];
      SizeIsKnown(s.table, fs, s.issued, NumberOf(f));
      if j != k || i < |l.started| {
        assert f == s.links[j].started[i];
        NumberInLog(s, j, i);
      } else {
        assert f == fs[i - |l.started|];
      }
    }
  }

  lemma NumberInLog(s: System, k: Sock, i: nat)
    requires LogInv(s) && k in s.links && i < |s.links[k].started|
    ensures NumberOf(s.links[k].started[i]) <= s.issued
  {
  }

  lemma ReceivesKeepsSizes(s: System, s': System, k: Sock, l': Link, ns: seq<nat>)
    requires SizesInv(s) && Receives(s, s', k, l', ns)
    ensures SizesInv(s')
  {
    ErasedKeys(s.table, ns);
    hide Erased, LookedUp, NumberOf, Missed, NewFrames;
    assert forall j :: j in s'.links ==> s'.links[j].started == s.links[j].started;
  }

  lemma OthersKeepSizes(max: nat, s: System, s': System, k: Sock, l': Link)
    requires SizesInv(s) && (Opens(s, s', k) || Flushes(s, s', k, l') || Serves(max, s, s', k, l'))
    ensures SizesInv(s')
  {
    hide NumberOf, EchoNext, Join;
    assert s'.table == s.table;
    assert forall j :: j in s'.links ==> s'.links[j].started == if j in s.links then s.links[j].started else [];
  }

  lemma NextKeepsSizes(max: nat, s: System, s': System)
    requires LogInv(s) && SizesInv(s) && Next(max, s, s') && s'.issued < SEQ_SPACE
    ensures SizesInv(s')
  {
    hide LogInv, SizesInv, Opens, Sends, Flushes, Serves, Receives;
    if k, l', fs :| Sends(s, s', k, l', fs) {
      SendsKeepsSizes(s, s', k, l', fs);
    } else if k, l', ns :| Receives(s, s', k, l', ns) {
      ReceivesKeepsSizes(s, s', k, l', ns);
    } else if k :| Opens(s, s', k) {
      OthersKeepSizes(max, s, s', k, Link([], [], [], [], []));
    } else if k, l' :| Flushes(s, s', k, l') {
      OthersKeepSizes(max, s, s', k, l');
    } else {
      var k, l' :| Serves(max, s, s', k, l');
      OthersKeepSizes(max, s, s', k, l');
    }
  }

  lemma LogOf(max: nat, s: System)
    requires Inv(max, s)
    ensures LogInv(s)
  {
  }

  lemma {:induction false} RunInv(max: nat, run: seq<System>)
    requires IsRun(max, run) && run[|run| - 1].issued < SEQ_SPACE && 1100 <= max
    ensures Inv(max, run[|run| - 1]) && SizesInv(run[|run| - 1])
    decreases |run|
  {
    if |run| == 1 {
    } else {
      var init := run[..|run| - 1];
      assert Next(max, run[|run| - 2], run[|run| - 1]);
      hide Next, Inv, SizesInv, LogInv;
      IssuedGrows(max, run[|run| - 2], run[|run| - 1]);
      RunInv(max, init);
      NextKeeps(max, run[|run| - 2], run[|run| - 1]);
      LogOf(max, run[|run| - 2]);
      NextKeepsSizes(max, run[|run| - 2], run[|run| - 1]);
    }
  }

  /** For every run with fewer than 2^32 pings, any number of connections and any delivery: on each
      connection the packets answered are a prefix of those sent; the table holds exactly the
      numbers sent and not yet answered, each with the size of its packet; and no answer was ever looked up in vain. */
  lemma TableIsTheUnanswered(max: nat, run: seq<System>)
    requires IsRun(max, run) && run[|run| - 1].issued < 0x1_0000_0000 && 1100 <= max
    ensures var s := run[|run| - 1];
      && (forall k :: k in s.links ==> Answered(s.links[k]) <= s.links[k].started)
      && s.missed == 0
      && (forall k, i :: k in s.links && 0 <= i < |s.links[k].started| ==>
            (NumberOf(s.links[k].started[i]) in s.table <==> i >= |Answered(s.links[k])|))
      && (forall k, i :: k in s.links && |Answered(s.links[k])| <= i < |s.links[k].started| ==>
            s.table[NumberOf(s.links[k].started[i])] == |s.links[k].started[i]|)
      && (forall n: nat :: n in s.table ==>
            exists k, i :: k in s.links && |Answered(s.links[k])| <= i < |s.links[k].started|
                           && NumberOf(s.links[k].started[i]) == n)
  {
    RunInv(max, run);
    var s := run[|run| - 1];
    hide IsRun;
    forall k | k in s.links ensures Answered(s.links[k]) <= s.links[k].started {
      AnswersFollowPings(max, s.links[k]);
    }
    hide LinkInv;
    BooksSay(s);
  }

  lemma BooksSay(s: System)
    requires LogInv(s) && TableInv(s)
    ensures forall k, i :: k in s.links && 0 <= i < |s.links[k].started| ==>
              (NumberOf(s.links[k].started[i]) in s.table <==> i >= |Answered(s.links[k])|)
    ensures forall n: nat :: n in s.table ==>
              exists k, i :: k in s.links && |Answered(s.links[k])| <= i < |s.links[k].started|
                             && NumberOf(s.links[k].started[i]) == n
  {
    hide Answered, NumberOf;
    forall k, i | k in s.links && 0 <= i < |s.links[k].started|
      ensures NumberOf(s.links[k].started[i]) in s.table <==> i >= |Answered(s.links[k])|
    {
      assert Unanswered(s, NumberOf(s.links[k].started[i])) <==> i >= |Answered(s.links[k])|;
    }
    forall n: nat | n in s.table
      ensures exists k, i :: k in s.links && |Answered(s.links[k])| <= i < |s.links[k].started|
                             && NumberOf(s.links[k].started[i]) == n
    {
      assert Unanswered(s, n);
      var k, i := s.log[n - 1].0, s.log[n - 1].1;
      assert NumberOf(s.links[k].started[i]) == n;
    }
  }
}
