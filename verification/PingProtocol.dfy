/** Ping packets and the client's table of unanswered ones. */
module PingProtocol {
  import opened Streams
  import opened Frames

  const SEQ_SPACE: nat := 0x1_0000_0000

  /** The lengths `send_ping_packet` picks from. */
  const PACKET_SIZES: set<nat> := {100, 300, 500, 800, 1100}

  /** The client gives up on longer packets. */
  const CLIENT_MAX: nat := 4096

  /** The four little-endian bytes of an unsigned number. */
  function Enc32(n: nat): (r: seq<byte>)
    ensures |r| == 4
    ensures n < SEQ_SPACE ==> Le32(r) == n
  {
    var a := n / 0x100;
    var b := a / 0x100;
    var c := b / 0x100;
    [n % 0x100, a % 0x100, b % 0x100, c % 0x100]
  }

  /** The sequence number in a packet. */
  function SeqOf(f: Frame): nat
    requires |f| >= 8
  {
    Le32(f[4..8])
  }

  predicate PingFrame(f: Frame, n: nat) {
    |f| in PACKET_SIZES && FrameOk(CLIENT_MAX, f) && SeqOf(f) == n
  }

  /** `sent_packet_info_map`: the size of each packet sent and not yet answered. */
  type Table = map<nat, nat>

  /** Packets numbered from `first` on, the number wrapping at 32 bits. */
  ghost predicate Numbered(fs: seq<Frame>, first: nat) {
    forall i :: 0 <= i < |fs| ==> PingFrame(fs[i], (first + i) % SEQ_SPACE)
  }

  function Recorded(t: Table, fs: seq<Frame>): Table
    requires forall i :: 0 <= i < |fs| ==> |fs[i]| >= 8
  {
    if fs == [] then t
    else Recorded(t, fs[..|fs| - 1])[SeqOf(fs[|fs| - 1]) := |fs[|fs| - 1]|]
  }

  /** `operator[]` followed by `erase` for each number in turn. */
  function Erased(t: Table, ns: seq<nat>): Table {
    if ns == [] then t else Erased(t, ns[..|ns| - 1]) - {ns[|ns| - 1]}
  }

  /** How many of those lookups found nothing and created an entry. */
  function Missed(t: Table, ns: seq<nat>): nat {
    if ns == [] then 0
    else Missed(t, ns[..|ns| - 1]) + (if ns[|ns| - 1] in Erased(t, ns[..|ns| - 1]) then 0 else 1)
  }

  lemma {:induction false} ErasedKeys(t: Table, ns: seq<nat>)
    ensures forall n :: n in Erased(t, ns) <==> n in t && n !in ns
    ensures forall n :: n in Erased(t, ns) ==> Erased(t, ns)[n] == t[n]
  {
    if ns != [] {
      ErasedKeys(t, ns[..|ns| - 1]);
      assert ns == ns[..|ns| - 1] + [ns[|ns| - 1]];
    }
  }

  /** Distinct numbers that are all in the table are found. */
  lemma {:induction false} NothingMissed(t: Table, ns: seq<nat>)
    requires forall i :: 0 <= i < |ns| ==> ns[i] in t
    requires forall i, j :: 0 <= i < j < |ns| ==> ns[i] != ns[j]
    ensures Missed(t, ns) == 0
  {
    if ns != [] {
      NothingMissed(t, ns[..|ns| - 1]);
      ErasedKeys(t, ns[..|ns| - 1]);
    }
  }

  /** The last packet with a number leaves its size, and other entries stay. */
  lemma {:induction false} RecordedSizes(t: Table, fs: seq<Frame>, n: nat)
    requires forall i :: 0 <= i < |fs| ==> |fs[i]| >= 8
    requires forall i, j :: 0 <= i < j < |fs| ==> SeqOf(fs[i]) != SeqOf(fs[j])
    ensures forall i :: 0 <= i < |fs| && SeqOf(fs[i]) == n ==>
              n in Recorded(t, fs) && Recorded(t, fs)[n] == |fs[i]|
    ensures n in t && (forall i :: 0 <= i < |fs| ==> SeqOf(fs[i]) != n) ==>
              n in Recorded(t, fs) && Recorded(t, fs)[n] == t[n]
  {
    if fs != [] {
      hide SeqOf;
      var init := fs[..|fs| - 1];
      assert forall i :: 0 <= i < |init| ==> init[i] == fs[i];
      RecordedSizes(t, init, n);
    }
  }

  lemma {:induction false} RecordedKeys(t: Table, fs: seq<Frame>)
    requires forall i :: 0 <= i < |fs| ==> |fs[i]| >= 8
    ensures forall n :: n in Recorded(t, fs) <==> n in t || exists i :: 0 <= i < |fs| && SeqOf(fs[i]) == n
  {
    if fs != [] {
      var init := fs[..|fs| - 1];
      RecordedKeys(t, init);
      forall n | n in Recorded(t, fs) ensures n in t || exists i :: 0 <= i < |fs| && SeqOf(fs[i]) == n {
        if n != SeqOf(fs[|fs| - 1]) && n !in t {
          var i :| 0 <= i < |init| && SeqOf(init[i]) == n;
          assert SeqOf(fs[i]) == n;
        }
      }
      forall i | 0 <= i < |fs| ensures SeqOf(fs[i]) in Recorded(t, fs) {
        if i < |init| { assert SeqOf(init[i]) in Recorded(t, init); }
      }
    }
  }
}
