/** The Unity client's decoder: one read per round into a fixed array, with no check of the length,
    and no way to finish a frame of four bytes. */
module UnityDecoder {
  import opened Streams
  import opened Transport
  import opened Frames

  const RECEIVED: nat := 4096

  /** `BitConverter.ToInt32`. */
  function Int32(p: seq<byte>): int
    requires |p| >= 4
  {
    if Le32(p) < 0x8000_0000 then Le32(p) else Le32(p) - 0x1_0000_0000
  }

  /** The same four bytes, read as a signed number. */
  lemma Int32IsSigned(p: seq<byte>)
    requires |p| >= 4
    ensures -0x8000_0000 <= Int32(p) < 0x8000_0000 && (Int32(p) - Le32(p)) % 0x1_0000_0000 == 0
  {
    Le32Below(p);
  }

  /** `Stuck` asks for nothing more; `Thrown` is an exception: a negative array size, or a copy
      beyond the array. */
  datatype State = Reading | Stuck | Thrown

  datatype CsParsed = CsParsed(frames: seq<Frame>, rest: seq<byte>, state: State)

  /** What the decoder makes of a stream, however it arrives. */
  function CsParse(s: seq<byte>): (p: CsParsed)
    decreases |s|
  {
    if |s| < 4 then CsParsed([], s, Reading)
    else
      var n := Int32(s);
      if n == 4 then CsParsed([], s, Stuck)
      else if n < 4 || (n > RECEIVED && |s| > RECEIVED) then CsParsed([], s, Thrown)
      else if |s| < n then CsParsed([], s, Reading)
      else
        var p := CsParse(s[n..]);
        p.(frames := [s[..n]] + p.frames)
  }

  predicate NoneOfFour(fs: seq<Frame>) { forall i :: 0 <= i < |fs| ==> |fs[i]| != 4 }

  /** The frames in front of the first one of length four. */
  function BeforeFour(fs: seq<Frame>): (r: seq<Frame>)
    ensures r <= fs
    ensures r == fs <==> NoneOfFour(fs)
  {
    if fs == [] || |fs[0]| == 4 then []
    else
      var r := BeforeFour(fs[1..]);
      assert fs == [fs[0]] + fs[1..];
      [fs[0]] + r
  }

  /** The decoder delivers what a checking decoder with limit 4096 delivers, up to the first frame
      of length four. */
  lemma {:induction false} CsIsParse(s: seq<byte>)
    ensures CsParse(s).frames == BeforeFour(Parse(RECEIVED, s).frames)
    ensures NoneOfFour(Parse(RECEIVED, s).frames) ==> CsParse(s).rest == Parse(RECEIVED, s).rest
    ensures NoneOfFour(Parse(RECEIVED, s).frames) && Parse(RECEIVED, s).good ==> CsParse(s).state == Reading
    ensures !NoneOfFour(Parse(RECEIVED, s).frames) ==> CsParse(s).state == Stuck
    decreases |s|
  {
    hide Join;
    if |s| >= 4 && 4 <= Le32(s) <= RECEIVED && Le32(s) <= |s| {
      var n := Le32(s);
      var fs := Parse(RECEIVED, s[n..]).frames;
      CsIsParse(s[n..]);
      FourInFront(s[..n], fs);
      hide NoneOfFour, BeforeFour;
    }
  }

  lemma FourInFront(f: Frame, fs: seq<Frame>)
    ensures NoneOfFour([f] + fs) <==> |f| != 4 && NoneOfFour(fs)
    ensures BeforeFour([f] + fs) == if |f| == 4 then [] else [f] + BeforeFour(fs)
  {
    assert ([f] + fs)[0] == f && ([f] + fs)[1..] == fs;
    assert forall i :: 0 <= i < |fs| ==> fs[i] == ([f] + fs)[i + 1];
  }

  /** Exactly when the two decoders deliver the same. */
  lemma CsAgreesUnlessFour(s: seq<byte>)
    ensures CsParse(s).frames == Parse(RECEIVED, s).frames <==> NoneOfFour(Parse(RECEIVED, s).frames)
  {
    CsIsParse(s);
  }

  /** All decoders of the repository on a stream whose lengths stay between 5 and 3000: the echo
      server's limit 3000, the clients' and the TCP server's 4096, the Unity client. */
  lemma DecodersAgree(s: seq<byte>)
    requires Parse(3000, s).good && NoneOfFour(Parse(3000, s).frames)
    ensures Parse(4096, s) == Parse(3000, s)
    ensures CsParse(s) == CsParsed(Parse(3000, s).frames, Parse(3000, s).rest, Reading)
  {
    ParseLimits(3000, 4096, s);
    CsIsParse(s);
  }

  /** Nothing after a frame of length four is ever delivered. */
  lemma FourBlocks(s: seq<byte>, t: seq<byte>)
    requires CsParse(s).state == Stuck
    ensures CsParse(s + t).state == Stuck && CsParse(s + t).frames == CsParse(s).frames
    decreases |s|
  {
    assert Le32(s + t) == Le32(s);
    if Int32(s) != 4 {
      var n := Int32(s);
      assert (s + t)[..n] == s[..n] && (s + t)[n..] == s[n..] + t;
      FourBlocks(s[n..], t);
    }
  }

  const FOUR: Frame := [4, 0, 0, 0]

  /** A frame of four bytes, which a checking decoder delivers, and whatever comes behind it. */
  lemma FourIsNeverDelivered(t: seq<byte>)
    ensures Parse(RECEIVED, FOUR) == Parsed([FOUR], [], true)
    ensures CsParse(FOUR + t).frames == [] && CsParse(FOUR + t).state == Stuck
  {
    assert Le32(FOUR) == 4 && FOUR[..4] == FOUR && FOUR[4..] == [];
    assert Parse(RECEIVED, []) == Parsed([], [], true);
    FourBlocks(FOUR, t);
  }

  /** A frame this decoder can finish. */
  predicate CsFrame(f: Frame) { FrameOk(RECEIVED, f) && |f| != 4 }

  lemma CsStep(f: Frame, s: seq<byte>)
    requires CsFrame(f)
    ensures CsParse(f + s) == CsParse(s).(frames := [f] + CsParse(s).frames)
  {
    assert Le32(f + s) == Le32(f);
    assert (f + s)[..|f|] == f && (f + s)[|f|..] == s;
  }

  lemma {:induction false} CsUnique(fs: seq<Frame>, rest: seq<byte>)
    requires forall i :: 0 <= i < |fs| ==> CsFrame(fs[i])
    ensures CsParse(Join(fs) + rest) == CsParse(rest).(frames := fs + CsParse(rest).frames)
  {
    hide CsParse, CsFrame;
    if fs == [] {
      assert Join(fs) + rest == rest && fs + CsParse(rest).frames == CsParse(rest).frames;
    } else {
      CsUnique(fs[1..], rest);
      CsStep(fs[0], Join(fs[1..]) + rest);
      assert Join(fs) + rest == fs[0] + (Join(fs[1..]) + rest);
      assert [fs[0]] + (fs[1..] + CsParse(rest).frames) == fs + CsParse(rest).frames;
    }
  }

  /** Bytes that do not make up a packet yet, as `RecvServerResponse` leaves them. */
  predicate Unfinished(filled: seq<byte>) {
    |filled| <= RECEIVED && (|filled| <= 4 || |filled| < Int32(filled))
  }

  /** The stream read so far, by what follows the packets in it. */
  lemma CsKnown(frames: seq<Frame>, filled: seq<byte>)
    requires forall i :: 0 <= i < |frames| ==> CsFrame(frames[i])
    ensures Unfinished(filled) || CsParse(filled) == CsParsed([], filled, Thrown) ==>
              CsParse(Join(frames) + filled) == CsParse(filled).(frames := frames)
    ensures CsFrame(filled) ==> Join(frames) + filled == Join(frames + [filled])
  {
    hide CsFrame;
    CsUnique(frames, filled);
    JoinSnoc(frames, filled);
    assert frames + [] == frames;
  }

  datatype Outcome = GoesOn | Waiting | Ended(code: int) | Threw

  /** The receiver waits exactly for "would block", ends with any other answer that brings nothing, and
      throws only for what it was given. */
  ghost predicate Answers(before: seq<int>, after: seq<int>, outcome: Outcome) {
    match outcome
    case Waiting => Declined(before, after, -1)
    case Ended(code) => code != -1 && Declined(before, after, code)
    case _ => Gave(before, after)
  }

  /** `s_received_data` and `s_received_size`; `delivered` are the packets given to the game. */
  class UnityReceiver {
    const receivedData: array<byte>
    var receivedSize: nat
    ghost var delivered: seq<Frame>

    constructor ()
      ensures fresh(receivedData) && receivedData.Length == RECEIVED && receivedSize == 0 && delivered == []
    {
      receivedData := new byte[RECEIVED];
      receivedSize, delivered := 0, [];
    }

    /** What was received is the packets delivered, then what the array holds. */
    ghost predicate Valid(received: seq<byte>)
      reads this, receivedData
    {
      && receivedData.Length == RECEIVED && receivedSize <= RECEIVED
      && (forall i :: 0 <= i < |delivered| ==> CsFrame(delivered[i]))
      && received == Join(delivered) + receivedData[..receivedSize]
      && Unfinished(receivedData[..receivedSize])
    }

    /** Put `chunk` behind what is there and deliver a packet that is complete. */
    method Store(buff: array<byte>, size: nat, ghost received: seq<byte>)
      requires buff != receivedData && size <= buff.Length && Valid(received)
      requires receivedSize + size <= RECEIVED
      requires if receivedSize < 4 then receivedSize + size <= 4
               else 4 < receivedSize + size <= Int32(receivedData[..receivedSize])
      modifies this`receivedSize, this`delivered, receivedData
      ensures Valid(received + buff[..size]) && old(delivered) <= delivered
    {
      hide Join, Le32;
      ghost var filled := receivedData[..receivedSize];
      ghost var now := filled + buff[..size];
      forall i | 0 <= i < size {
        receivedData[receivedSize + i] := buff[i];
      }
      receivedSize := receivedSize + size;
      assert receivedData[..receivedSize] == now;
      Regroup(Join(delivered), filled, buff[..size]);
      if |filled| >= 4 {
        SameLength(filled, now);
      }
      if receivedSize > 4 {
        SameLength(now, receivedData[..]);
        if receivedSize == Int32(receivedData[..]) {
          IsCsFrame(now);
          CsKnown(delivered, now);
          delivered := delivered + [now];
          receivedSize := 0;
          assert Join(delivered) + [] == Join(delivered);
        }
      }
    }

    /** `rt_recv` into a new array. */
    static method RecvNew(socket: RtSocket, size: nat) returns (ret: int, buff: array<byte>, ghost chunk: seq<byte>)
      modifies socket`recvPlan, socket`recvs, socket`arriving, socket`received, socket`log
      ensures fresh(buff) && buff.Length == size && ret <= size
      ensures ret <= 0 ==> socket.received == old(socket.received) && socket.arriving == old(socket.arriving)
      ensures ret > 0 ==> chunk == buff[..ret] && |chunk| == ret
      ensures ret > 0 ==> socket.received == old(socket.received) + chunk && |socket.arriving| < |old(socket.arriving)|
      ensures socket.received + socket.arriving == old(socket.received) + old(socket.arriving)
      ensures socket.recvs == old(socket.recvs) + [ret]
    {
      buff := new byte[size];
      ret := socket.Recv(buff, 0, size);
      chunk := buff[..if ret > 0 then ret else 0];
    }

    /** One round of `RecvServerResponse`: one call of `rt_recv`. */
    method RecvOnce(socket: RtSocket) returns (outcome: Outcome)
      requires Valid(socket.received)
      modifies this`receivedSize, this`delivered, receivedData
      modifies socket`recvPlan, socket`recvs, socket`arriving, socket`received, socket`log
      ensures socket.received + socket.arriving == old(socket.received) + old(socket.arriving)
      ensures old(socket.received) <= socket.received && old(delivered) <= delivered
      ensures outcome.GoesOn? ==> |socket.arriving| < |old(socket.arriving)| && Valid(socket.received)
      ensures outcome.Waiting? || outcome.Ended? ==> socket.received == old(socket.received) && Valid(socket.received)
      ensures outcome.Threw? ==>
        CsParse(socket.received).state == Thrown && CsParse(socket.received).frames == delivered
      ensures Answers(old(socket.recvs), socket.recvs, outcome)
    {
      hide Join, Le32, CsFrame, CsParse, Gave, Declined;
      NothingAsked(socket.recvs);
      ghost var filled, got := receivedData[..receivedSize], socket.received;
      var recvSize := 4 - receivedSize;
      if receivedSize >= 4 {
        SameLength(filled, receivedData[..]);
        recvSize := Int32(receivedData[..]) - receivedSize;
        if recvSize < 0 {
          Underflows(delivered, filled);
          return Threw;
        }
      }
      var ret, buff, chunk := RecvNew(socket, recvSize);
      GaveMore(old(socket.recvs), old(socket.recvs), ret);
      if ret > 0 {
        if receivedSize + ret > RECEIVED {
          Overflows(delivered, filled, chunk);
          Regroup(Join(delivered), filled, chunk);
          return Threw;
        }
        Store(buff, ret, got);
        outcome := GoesOn;
      } else {
        outcome := if ret == -1 then Waiting else Ended(ret);
      }
    }

    /** `RecvServerResponse`. */
    method RecvServerResponse(socket: RtSocket) returns (outcome: Outcome)
      requires Valid(socket.received)
      modifies this`receivedSize, this`delivered, receivedData
      modifies socket`recvPlan, socket`recvs, socket`arriving, socket`received, socket`log
      ensures socket.received + socket.arriving == old(socket.received) + old(socket.arriving)
      ensures delivered == CsParse(socket.received).frames
      ensures !outcome.GoesOn?
      ensures outcome.Threw? ==> CsParse(socket.received).state == Thrown
      ensures !outcome.Threw? ==> Valid(socket.received)
      ensures Answers(old(socket.recvs), socket.recvs, outcome)
    {
      hide Join, CsFrame, Gave, Declined;
      NothingAsked(socket.recvs);
      while true
        invariant Gave(old(socket.recvs), socket.recvs)
        invariant Valid(socket.received)
        invariant socket.received + socket.arriving == old(socket.received) + old(socket.arriving)
        decreases |socket.arriving|
      {
        ghost var recvs := socket.recvs;
        outcome := RecvOnce(socket);
        if outcome.Waiting? || outcome.Ended? {
          GaveThenDeclined(old(socket.recvs), recvs, socket.recvs, if outcome.Waiting? then -1 else outcome.code);
        } else {
          GaveTwice(old(socket.recvs), recvs, socket.recvs);
        }
        if !outcome.GoesOn? {
          if !outcome.Threw? {
            CsKnown(delivered, receivedData[..receivedSize]);
          }
          return;
        }
      }
    }
  }

  /** A length below four: the next array would have a negative size. */
  lemma Underflows(frames: seq<Frame>, filled: seq<byte>)
    requires forall i :: 0 <= i < |frames| ==> CsFrame(frames[i])
    requires |filled| >= 4 && Unfinished(filled) && Int32(filled) < |filled|
    ensures CsParse(Join(frames) + filled) == CsParsed(frames, filled, Thrown)
  {
    CsKnown(frames, filled);
  }

  /** More bytes of one packet than the array holds. */
  lemma Overflows(frames: seq<Frame>, filled: seq<byte>, chunk: seq<byte>)
    requires forall i :: 0 <= i < |frames| ==> CsFrame(frames[i])
    requires |filled| >= 4 && |filled + chunk| > RECEIVED && |filled + chunk| <= Int32(filled)
    ensures CsParse(Join(frames) + (filled + chunk)) == CsParsed(frames, filled + chunk, Thrown)
  {
    hide Join, Le32, CsFrame;
    SameLength(filled, filled + chunk);
    CsKnown(frames, filled + chunk);
  }

  lemma IsCsFrame(s: seq<byte>)
    requires 4 < |s| <= RECEIVED && Int32(s) == |s|
    ensures CsFrame(s)
  {
  }

  lemma SameLength(s: seq<byte>, t: seq<byte>)
    requires |s| >= 4 && s <= t
    ensures Int32(s) == Int32(t)
  {
  }
}
