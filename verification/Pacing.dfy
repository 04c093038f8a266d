/** The pressure tester's pacing: a budget of packets per second, spent on a five-millisecond timer
    by nested floor division. */
module Pacing {

  const INT_MAX: int := 0x7FFF_FFFF

  /** Timer ticks in a second. */
  const TICKS: nat := 200

  /** `count_left_per_second` and `time_left`. */
  datatype Pace = Pace(countLeft: int, timeLeft: int)

  /** C++ integer division, which truncates towards zero. */
  function Quotient(a: int, b: int): int
    requires b > 0
  {
    if a >= 0 then a / b else -((-a) / b)
  }

  /** A new second begins when the budget is spent: two packets per connection. */
  function Renewed(p: Pace, size: nat): Pace {
    if p.countLeft == 0 then Pace(2 * size, 1000) else p
  }

  function CurCount(p: Pace): int {
    if p.timeLeft > 0 then Quotient(5 * p.countLeft, p.timeLeft) else p.countLeft
  }

  /** How many packets a tick with `size` connections attempts. */
  function Attempts(p: Pace, size: nat): nat {
    if size == 0 || CurCount(Renewed(p, size)) <= 0 then 0 else CurCount(Renewed(p, size))
  }

  /** `timer_callback`. */
  function Tick(p: Pace, size: nat): Pace {
    if size == 0 then p
    else
      var r := Renewed(p, size);
      Pace(r.countLeft - Attempts(p, size), r.timeLeft - 5)
  }

  /** The timer over ticks that find `sizes` connections. */
  function After(p: Pace, sizes: seq<nat>): Pace
    decreases |sizes|
  {
    if sizes == [] then p else After(Tick(p, sizes[0]), sizes[1..])
  }

  function Attempted(p: Pace, sizes: seq<nat>): seq<nat>
    decreases |sizes|
  {
    if sizes == [] then [] else [Attempts(p, sizes[0])] + Attempted(Tick(p, sizes[0]), sizes[1..])
  }

  function Sum(ns: seq<nat>): nat {
    if ns == [] then 0 else ns[0] + Sum(ns[1..])
  }

  /** The closed form: what is left of a budget of `c` after `k` ticks, and the share of tick `k`. */
  function Left(c: nat, k: nat): int
    requires k <= TICKS
  {
    if k <= TICKS - c % TICKS then (TICKS - k) * (c / TICKS) + c % TICKS else (TICKS - k) * (c / TICKS + 1)
  }

  function Share(c: nat, k: nat): nat {
    if k < TICKS - c % TICKS then c / TICKS else c / TICKS + 1
  }

  lemma FloorOf(d: nat, q: nat, r: nat)
    requires r < d
    ensures (d * q + r) / d == q
  {
    var n := d * q + r;
    var x, m := n / d, n % d;
    assert n == d * x + m;
    assert d * (q - x) == m - r;
    if q > x {
      AtLeast(d, q - x);
    } else if q < x {
      assert d * (x - q) == r - m;
      AtLeast(d, x - q);
    }
  }

  lemma AtLeast(d: nat, e: nat)
    requires e >= 1
    ensures d * e >= d
  {
  }

  lemma FiveTimes(n: nat, d: nat)
    requires d > 0
    ensures (5 * n) / (5 * d) == n / d
  {
    var q, r := n / d, n % d;
    assert 5 * n == (5 * d) * q + 5 * r;
    FloorOf(5 * d, q, 5 * r);
  }

  /** While ticks remain, so does some of the budget, and the division gives the share. */
  lemma LeftSplits(c: nat, k: nat)
    requires 1 <= c && k < TICKS
    ensures 0 < Left(c, k) && Left(c, k) / (TICKS - k) == Share(c, k)
    ensures Left(c, k) - Share(c, k) == Left(c, k + 1)
  {
    var q, r, d := c / TICKS, c % TICKS, TICKS - k;
    if k < TICKS - r {
      FloorOf(d, q, r);
    } else {
      assert Left(c, k) == d * (q + 1) by {
        if k == TICKS - r { assert d == r; }
      }
      FloorOf(d, q + 1, 0);
    }
  }

  /** One tick, inside a second that began with budget `c`. */
  lemma TickShares(c: nat, k: nat, size: nat)
    requires 1 <= c && k < TICKS && size > 0
    ensures var p := Pace(Left(c, k), 1000 - 5 * k);
      && p.countLeft > 0
      && Attempts(p, size) == Share(c, k)
      && Tick(p, size) == Pace(Left(c, k + 1), 1000 - 5 * (k + 1))
  {
    LeftSplits(c, k);
    FiveTimes(Left(c, k), TICKS - k);
    hide Left, Share;
  }

  lemma {:induction false} SecondFrom(c: nat, k: nat, sizes: seq<nat>)
    requires 1 <= c && k + |sizes| <= TICKS
    requires forall i :: 0 <= i < |sizes| ==> sizes[i] > 0
    ensures var p := Pace(Left(c, k), 1000 - 5 * k);
      && After(p, sizes) == Pace(Left(c, k + |sizes|), 1000 - 5 * (k + |sizes|))
      && |Attempted(p, sizes)| == |sizes|
      && (forall i :: 0 <= i < |sizes| ==> Attempted(p, sizes)[i] == Share(c, k + i))
      && Sum(Attempted(p, sizes)) == Left(c, k) - Left(c, k + |sizes|)
    decreases |sizes|
  {
    if sizes != [] {
      TickShares(c, k, sizes[0]);
      LeftSplits(c, k);
      SecondFrom(c, k + 1, sizes[1..]);
      hide Left, Share, Tick, Attempts;
      var p := Pace(Left(c, k), 1000 - 5 * k);
      var rest := Attempted(Tick(p, sizes[0]), sizes[1..]);
      assert Attempted(p, sizes)[1..] == rest;
      forall i | 0 <= i < |sizes| ensures Attempted(p, sizes)[i] == Share(c, k + i) {
        if i > 0 { assert Attempted(p, sizes)[i] == rest[i - 1]; }
      }
    }
  }

  predicate Busy(sizes: seq<nat>) { forall i :: 0 <= i < |sizes| ==> sizes[i] > 0 }

  lemma BusySecond(p: Pace, sizes: seq<nat>)
    requires p.countLeft == 0 && sizes != [] && |sizes| <= TICKS && Busy(sizes)
    ensures var c := 2 * sizes[0];
      && |Attempted(p, sizes)| == |sizes|
      && (forall i :: 0 <= i < |sizes| ==>
            Attempted(p, sizes)[i] == c / TICKS + if i < TICKS - c % TICKS then 0 else 1)
      && After(p, sizes).countLeft >= 0
      && After(p, sizes).timeLeft == 1000 - 5 * |sizes|
      && (After(p, sizes).countLeft == 0 <==> |sizes| == TICKS)
      && Sum(Attempted(p, sizes)) == c - After(p, sizes).countLeft
  {
    var c := 2 * sizes[0];
    SecondFrom(c, 0, sizes);
    assert Left(c, 0) == c;
    assert Renewed(p, sizes[0]) == Renewed(Pace(c, 1000), sizes[0]);
    assert After(p, sizes) == After(Pace(c, 1000), sizes) && Attempted(p, sizes) == Attempted(Pace(c, 1000), sizes);
    if |sizes| < TICKS {
      LeftSplits(c, |sizes|);
    } else {
      assert Left(c, TICKS) == 0;
    }
  }

  lemma {:induction false} AfterAppend(p: Pace, a: seq<nat>, b: seq<nat>)
    ensures After(p, a + b) == After(After(p, a), b)
    ensures Attempted(p, a + b) == Attempted(p, a) + Attempted(After(p, a), b)
    decreases |a|
  {
    if a == [] {
      assert a + b == b;
    } else {
      AfterAppend(Tick(p, a[0]), a[1..], b);
      assert (a + b)[1..] == a[1..] + b;
    }
  }

  lemma {:induction false} SumAppend(a: seq<nat>, b: seq<nat>)
    ensures Sum(a + b) == Sum(a) + Sum(b)
  {
    if a == [] {
      assert a + b == b;
    } else {
      SumAppend(a[1..], b);
      assert (a + b)[1..] == a[1..] + b;
    }
  }

  /** The budgets of consecutive seconds. */
  function Budgets(sizes: seq<nat>): nat
    decreases |sizes|
  {
    if |sizes| < TICKS then 0 else 2 * sizes[0] + Budgets(sizes[TICKS..])
  }

  lemma {:induction false} BusySeconds(p: Pace, sizes: seq<nat>)
    requires p.countLeft == 0 && Busy(sizes) && |sizes| % TICKS == 0
    ensures After(p, sizes).countLeft == 0
    ensures Sum(Attempted(p, sizes)) == Budgets(sizes)
    decreases |sizes|
  {
    if sizes != [] {
      var a, b := sizes[..TICKS], sizes[TICKS..];
      assert sizes == a + b;
      BusySecond(p, a);
      BusySeconds(After(p, a), b);
      AfterAppend(p, a, b);
      SumAppend(Attempted(p, a), Attempted(After(p, a), b));
    }
  }

  // Ticks that find no connection in between.

  /** The ticks that find connections. */
  function BusyOf(sizes: seq<nat>): (r: seq<nat>)
    ensures Busy(r) && |r| <= |sizes|
  {
    if sizes == [] then [] else (if sizes[0] == 0 then [] else [sizes[0]]) + BusyOf(sizes[1..])
  }

  lemma {:induction false} BusyBefore(sizes: seq<nat>, i: nat)
    requires i < |sizes| && sizes[i] > 0
    ensures |BusyOf(sizes[..i])| < |BusyOf(sizes)|
    ensures i > 0 ==> |BusyOf(sizes[..i])| == |BusyOf(sizes[1..][..i - 1])| + if sizes[0] == 0 then 0 else 1
    decreases i
  {
    if i > 0 {
      assert sizes[..i][1..] == sizes[1..][..i - 1];
      BusyBefore(sizes[1..], i - 1);
    }
  }

  /** Ticks without connections change nothing for the others: the state and the sum of the attempts
      are as if they were not there. */
  lemma {:induction false} EmptyTicksDropOut(p: Pace, sizes: seq<nat>)
    ensures After(p, sizes) == After(p, BusyOf(sizes))
    ensures Sum(Attempted(p, sizes)) == Sum(Attempted(p, BusyOf(sizes)))
    ensures |Attempted(p, sizes)| == |sizes| && |Attempted(p, BusyOf(sizes))| == |BusyOf(sizes)|
    decreases |sizes|
  {
    if sizes != [] {
      var rest, q := sizes[1..], Tick(p, sizes[0]);
      EmptyTicksDropOut(q, rest);
      BusyHead(sizes);
      assert sizes[0] == 0 ==> q == p && Attempts(p, sizes[0]) == 0;
      assert Attempted(p, sizes)[1..] == Attempted(q, rest);
      hide Tick, Attempts, BusyOf;
      if sizes[0] > 0 {
        assert Attempted(p, BusyOf(sizes))[1..] == Attempted(q, BusyOf(rest));
      }
    }
  }

  lemma BusyHead(sizes: seq<nat>)
    requires sizes != []
    ensures sizes[0] == 0 ==> BusyOf(sizes) == BusyOf(sizes[1..])
    ensures sizes[0] > 0 ==> BusyOf(sizes) == [sizes[0]] + BusyOf(sizes[1..])
    ensures sizes[0] > 0 ==> BusyOf(sizes)[0] == sizes[0] && BusyOf(sizes)[1..] == BusyOf(sizes[1..])
  {
  }

  /** Each tick by itself: one without connections attempts nothing, another what it would attempt
      without them. */
  lemma {:induction false} AttemptAt(p: Pace, sizes: seq<nat>, i: nat)
    requires i < |sizes|
    ensures |Attempted(p, sizes)| == |sizes| && |Attempted(p, BusyOf(sizes))| == |BusyOf(sizes)|
    ensures sizes[i] == 0 ==> Attempted(p, sizes)[i] == 0
    ensures sizes[i] > 0 ==>
              && |BusyOf(sizes[..i])| < |BusyOf(sizes)|
              && Attempted(p, sizes)[i] == Attempted(p, BusyOf(sizes))[|BusyOf(sizes[..i])|]
    decreases i
  {
    EmptyTicksDropOut(p, sizes);
    BusyHead(sizes);
    if sizes[i] > 0 { BusyBefore(sizes, i); }
    if i > 0 {
      AttemptAt(Tick(p, sizes[0]), sizes[1..], i - 1);
      assert Attempted(p, sizes)[i] == Attempted(Tick(p, sizes[0]), sizes[1..])[i - 1];
      assert sizes[0] == 0 ==> Tick(p, sizes[0]) == p;
      hide Tick, Attempts, BusyOf;
    }
  }

  /** A second, from a renewal with `busy[0]` connections to the end of its 200 ticks or any moment
      before, however many ticks in between find no connection.  With C = 2 * busy[0], q = C / 200
      and r = C % 200, the first 200 - r ticks attempt q packets, the others q + 1; the budget is
      never negative and is spent exactly when the time is up; and 200 ticks attempt C packets,
      however the number of connections changes meanwhile. */
  lemma SecondClosedForm(p: Pace, sizes: seq<nat>)
    requires p.countLeft == 0 && 0 < |BusyOf(sizes)| <= TICKS
    ensures var busy := BusyOf(sizes);
            var c := 2 * busy[0];
      && |Attempted(p, sizes)| == |sizes|
      && (forall i :: 0 <= i < |sizes| ==>
            Attempted(p, sizes)[i]
            == if sizes[i] == 0 then 0
               else c / TICKS + if |BusyOf(sizes[..i])| < TICKS - c % TICKS then 0 else 1)
      && After(p, sizes).countLeft >= 0
      && After(p, sizes).timeLeft == 1000 - 5 * |busy|
      && (After(p, sizes).countLeft == 0 <==> |busy| == TICKS)
      && Sum(Attempted(p, sizes)) == c - After(p, sizes).countLeft
  {
    BusySecond(p, BusyOf(sizes));
    EmptyTicksDropOut(p, sizes);
    hide After, Attempted, BusyOf;
    forall i | 0 <= i < |sizes|
      ensures Attempted(p, sizes)[i]
              == if sizes[i] == 0 then 0
                 else 2 * BusyOf(sizes)[0] / TICKS
                      + if |BusyOf(sizes[..i])| < TICKS - 2 * BusyOf(sizes)[0] % TICKS then 0 else 1
    {
      AttemptAt(p, sizes, i);
    }
  }

  /** Over whole seconds of ticks with connections, wherever ticks without lie in between, as many
      packets are attempted as were budgeted, second by second, and the next tick starts a new one. */
  lemma WholeSeconds(p: Pace, sizes: seq<nat>)
    requires p.countLeft == 0 && |BusyOf(sizes)| % TICKS == 0
    ensures After(p, sizes).countLeft == 0
    ensures Sum(Attempted(p, sizes)) == Budgets(BusyOf(sizes))
  {
    EmptyTicksDropOut(p, sizes);
    BusySeconds(p, BusyOf(sizes));
  }

  /** The state of the timer: renewed when spent, otherwise somewhere in a second. */
  ghost predicate InSecond(p: Pace) {
    p.countLeft == 0 || exists c: nat, k: nat :: OnPace(p, c, k)
  }

  ghost predicate OnPace(p: Pace, c: nat, k: nat) {
    1 <= c && k < TICKS && 5 * c <= INT_MAX && p == Pace(Left(c, k), 1000 - 5 * k)
  }

  lemma AtMost(a: nat, b: nat, q: nat)
    requires a <= b
    ensures 0 <= a * q <= b * q
  {
  }

  lemma LeftBounded(c: nat, k: nat)
    requires k <= TICKS
    ensures 0 <= Left(c, k) <= c
  {
    var q, r := c / TICKS, c % TICKS;
    assert c == TICKS * q + r;
    AtMost(TICKS - k, TICKS, q);
    if k > TICKS - r {
      assert (TICKS - k) * (q + 1) == (TICKS - k) * q + (TICKS - k);
    }
  }

  /** The two static counters, and the attempts of the last tick. */
  class Pacer {
    var countLeftPerSecond: int
    var timeLeft: int
    ghost var attempts: seq<nat>      // socket indices picked

    function View(): Pace
      reads this
    {
      Pace(countLeftPerSecond, timeLeft)
    }

    constructor ()
      ensures View() == Pace(0, 0) && InSecond(View())
    {
      countLeftPerSecond, timeLeft, attempts := 0, 0, [];
    }

    /** `send_ping_packet` on connections picked at random. */
    method Attempt(size: nat, count: nat)
      requires size > 0
      modifies this`attempts
      ensures |attempts| == count && forall i :: 0 <= i < |attempts| ==> attempts[i] < size
    {
      attempts := [];
      for i := 0 to count
        invariant |attempts| == i && forall j :: 0 <= j < |attempts| ==> attempts[j] < size
      {
        var randIndex: nat :| randIndex < size;
        attempts := attempts + [randIndex];
      }
    }

    /** `timer_callback`: no product leaves the range of `int`, and the branch for a second that is
        over with packets left is never taken. */
    method TimerCallback(size: nat)
      requires InSecond(View()) && 10 * size <= INT_MAX
      modifies this
      ensures InSecond(View()) && View() == Tick(old(View()), size)
      ensures |attempts| == Attempts(old(View()), size)
      ensures forall i :: 0 <= i < |attempts| ==> attempts[i] < size
    {
      attempts := [];
      if size > 0 {
        KeepsPace(View(), size);
        if countLeftPerSecond == 0 {
          countLeftPerSecond := size * 2;
          timeLeft := 1000;
        }
        assert timeLeft > 0 && 0 <= 5 * countLeftPerSecond <= INT_MAX;
        hide Quotient, InSecond;
        var curCount := 0;
        if timeLeft > 0 {
          curCount := Quotient(5 * countLeftPerSecond, timeLeft);
        } else {
          curCount := countLeftPerSecond;
        }
        if curCount > 0 {
          Attempt(size, curCount);
          countLeftPerSecond := countLeftPerSecond - curCount;
        }
        timeLeft := timeLeft - 5;
      }
    }
  }

  /** A tick keeps the timer inside its second. */
  lemma KeepsPace(p: Pace, size: nat)
    requires InSecond(p) && size > 0 && 10 * size <= INT_MAX
    ensures InSecond(Tick(p, size))
    ensures Renewed(p, size).timeLeft > 0 && 0 <= 5 * Renewed(p, size).countLeft <= INT_MAX
  {
    var c: nat, k: nat := 2 * size, 0;
    if p.countLeft != 0 {
      c, k :| OnPace(p, c, k);
    }
    assert Left(2 * size, 0) == 2 * size;
    assert OnPace(Renewed(p, size), c, k);
    TickShares(c, k, size);
    LeftBounded(c, k);
    var next := Tick(p, size);
    assert next == Tick(Renewed(p, size), size);
    if k + 1 < TICKS {
      assert OnPace(next, c, k + 1);
    } else {
      assert Left(c, TICKS) == 0;
    }
  }
}
