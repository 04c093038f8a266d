/** Length-prefixed frames: the four-byte little-endian length counts itself.

    `Parse` reads a whole stream at once.  The incremental decoders of the programs are proved
    against it, so what they deliver depends on the bytes and not on how they were fragmented. */
module Frames {
  import opened Streams

  type Frame = seq<byte>

  /** `*(uint32_t*)p` on a little-endian host. */
  function Le32(p: seq<byte>): nat
    requires |p| >= 4
  {
    p[0] as int + 0x100 * (p[1] as int) + 0x1_0000 * (p[2] as int) + 0x100_0000 * (p[3] as int)
  }

  /** Which number four bytes are: the first is its lowest digit to base 256, and the others are the
      rest; bytes behind the fourth do not matter. */
  lemma Le32Digits(p: seq<byte>)
    requires |p| >= 4
    ensures Le32(p) % 256 == p[0] as int && Le32(p) / 256 == Le32([p[1], p[2], p[3], 0])
    ensures Le32(p) == Le32(p[..4])
  {
  }

  lemma Le32Below(p: seq<byte>)
    requires |p| >= 4
    ensures Le32(p) < 0x1_0000_0000
  {
  }

  /** So a packet of 300 bytes begins with these four. */
  lemma ThreeHundred()
    ensures Le32([0x2C, 1, 0, 0]) == 300
  {
  }

  /** A frame that states its own length, no longer than a decoder with limit `max` admits. */
  predicate FrameOk(max: nat, f: Frame) {
    4 <= |f| <= max && Le32(f) == |f|
  }

  ghost predicate FramesOk(max: nat, fs: seq<Frame>) {
    forall i :: 0 <= i < |fs| ==> FrameOk(max, fs[i])
  }

  /** The beginning of a frame: more bytes are needed, and the length, if known, is admissible. */
  predicate Partial(max: nat, s: seq<byte>) {
    |s| < 4 || (4 <= Le32(s) <= max && |s| < Le32(s))
  }

  /** A length that makes a decoder with limit `max` give up. */
  predicate BadLength(max: nat, s: seq<byte>) {
    |s| >= 4 && !(4 <= Le32(s) <= max)
  }

  datatype Parsed = Parsed(frames: seq<Frame>, rest: seq<byte>, good: bool)

  /** Putting the first frame of a stream in front of the frames of the rest. */
  lemma ConsFrame(max: nat, s: seq<byte>, fs: seq<Frame>, rest: seq<byte>)
    requires |s| >= 4 && 4 <= Le32(s) <= max && Le32(s) <= |s|
    requires FramesOk(max, fs) && Join(fs) + rest == s[Le32(s)..]
    ensures FramesOk(max, [s[..Le32(s)]] + fs)
    ensures Join([s[..Le32(s)]] + fs) + rest == s
  {
    var n := Le32(s);
    assert Le32(s[..n]) == n;
    assert ([s[..n]] + fs)[1..] == fs;
    assert s == s[..n] + (Join(fs) + rest);
  }

  /** All frames of a stream, what is left over, and whether it stopped short of a bad length. */
  function Parse(max: nat, s: seq<byte>): (p: Parsed)
    ensures FramesOk(max, p.frames)
    ensures Join(p.frames) + p.rest == s
    ensures if p.good then Partial(max, p.rest) else BadLength(max, p.rest)
    decreases |s|
  {
    if Partial(max, s) then Parsed([], s, true)
    else if BadLength(max, s) then Parsed([], s, false)
    else
      var n := Le32(s);
      var p := Parse(max, s[n..]);
      ConsFrame(max, s, p.frames, p.rest);
      p.(frames := [s[..n]] + p.frames)
  }

  /** Which lengths are admitted, both limits included: a frame of four bytes is, one of three is not,
      nor one longer than the limit. */
  lemma LimitsAreInclusive(max: nat, s: seq<byte>)
    requires |s| >= 4 && Le32(s) == |s| && max >= 4
    ensures Parse(max, s) == if |s| <= max then Parsed([s], [], true) else Parsed([], s, false)
  {
    if |s| <= max {
      assert Parse(max, []) == Parsed([], [], true);
      assert s[..|s|] == s && s[|s|..] == [] && [s] + [] == [s];
    }
  }

  lemma ShortLengthsAreBad(max: nat, s: seq<byte>)
    requires |s| >= 4 && Le32(s) <= 3
    ensures Parse(max, s) == Parsed([], s, false)
  {
  }

  /** There is only one way to cut a stream into frames: any decomposition into well-formed frames
      and an unfinished or ill-formed remainder is the parse. */
  lemma {:induction false} ParseUnique(max: nat, fs: seq<Frame>, rest: seq<byte>)
    requires FramesOk(max, fs)
    requires Partial(max, rest) || BadLength(max, rest)
    ensures Parse(max, Join(fs) + rest) == Parsed(fs, rest, Partial(max, rest))
  {
    if fs == [] {
      assert Join(fs) + rest == rest;
    } else {
      var s := Join(fs) + rest;
      var tail := Join(fs[1..]) + rest;
      assert s == fs[0] + tail;
      assert Le32(s) == Le32(fs[0]);
      assert s[..|fs[0]|] == fs[0] && s[|fs[0]|..] == tail;
      ParseUnique(max, fs[1..], rest);
      assert [fs[0]] + fs[1..] == fs;
    }
  }

  /** Reading on: parsing more bytes continues from the remainder. */
  lemma ParseAppend(max: nat, s: seq<byte>, t: seq<byte>)
    requires Parse(max, s).good
    ensures var p, q := Parse(max, s), Parse(max, Parse(max, s).rest + t);
            Parse(max, s + t) == Parsed(p.frames + q.frames, q.rest, q.good)
  {
    hide Join, Le32;
    var p, q := Parse(max, s), Parse(max, Parse(max, s).rest + t);
    JoinAppend(p.frames, q.frames);
    assert s + t == Join(p.frames + q.frames) + q.rest by {
      assert s + t == Join(p.frames) + (p.rest + t);
      assert p.rest + t == Join(q.frames) + q.rest;
    }
    ParseUnique(max, p.frames + q.frames, q.rest);
  }

  /** A decoder never runs ahead of, or away from, the frames that were sent: any prefix of a
      stream of frames parses to a prefix of those frames. */
  lemma {:induction false} ParseOfPrefix(max: nat, fs: seq<Frame>, s: seq<byte>)
    requires FramesOk(max, fs)
    requires s <= Join(fs)
    ensures Parse(max, s).good && Parse(max, s).frames <= fs
  {
    if fs != [] {
      var tail := Join(fs[1..]);
      var n := |fs[0]|;
      assert Join(fs) == fs[0] + tail;
      if |s| >= n {
        assert s[..n] == fs[0] && s[n..] <= tail;
        assert Le32(s) == Le32(s[..n]);
        ParseOfPrefix(max, fs[1..], s[n..]);
        assert [fs[0]] + fs[1..] == fs;
      } else if |s| >= 4 {
        assert s == fs[0][..|s|];
        assert Le32(s) == Le32(fs[0]);
      }
    }
  }

  /** Extending a stream extends its frames, whatever was there. */
  lemma ParseMonotone(max: nat, s: seq<byte>, t: seq<byte>)
    requires s <= t
    ensures Parse(max, s).frames <= Parse(max, t).frames
  {
    assert t == s + t[|s|..];
    if Parse(max, s).good {
      ParseAppend(max, s, t[|s|..]);
    } else {
      var p := Parse(max, s);
      var rest := p.rest + t[|s|..];
      assert Le32(rest) == Le32(p.rest);
      assert t == Join(p.frames) + rest;
      ParseUnique(max, p.frames, rest);
    }
  }

  /** Two decoders that differ only in their limit agree while no frame exceeds the smaller one. */
  lemma ParseLimits(small: nat, large: nat, s: seq<byte>)
    requires small <= large
    requires Parse(small, s).good
    ensures Parse(large, s) == Parse(small, s)
  {
    var p := Parse(small, s);
    ParseUnique(large, p.frames, p.rest);
  }
}
