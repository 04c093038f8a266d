/** Byte streams: concatenation of byte strings and its interplay with prefixes. */
module Streams {

  /** One octet of a stream (a C++ `char` buffer cell). */
  type byte = b: int | 0 <= b < 256

  datatype Option<+T> = None | Some(value: T)

  function Min(a: int, b: int): int { if a <= b then a else b }

  /** The bytes of a text, one octet per character. */
  function Ascii(s: string): (r: seq<byte>)
    ensures |r| == |s|
    ensures forall i :: 0 <= i < |s| && s[i] as int < 256 ==> r[i] == s[i] as int
  {
    seq(|s|, i requires 0 <= i < |s| => (s[i] as int) % 256)
  }

  /** The concatenation of a list of byte strings. */
  function Join(parts: seq<seq<byte>>): seq<byte> {
    if parts == [] then [] else parts[0] + Join(parts[1..])
  }

  lemma JoinHead(parts: seq<seq<byte>>)
    requires parts != []
    ensures Join(parts) == parts[0] + Join(parts[1..])
  {
  }

  lemma {:induction false} JoinAppend(a: seq<seq<byte>>, b: seq<seq<byte>>)
    ensures Join(a + b) == Join(a) + Join(b)
  {
    if a == [] {
      assert a + b == b && [] + Join(b) == Join(b);
    } else {
      hide Join;
      JoinAppend(a[1..], b);
      JoinHead(a);
      JoinHead(a + b);
      assert (a + b)[0] == a[0] && (a + b)[1..] == a[1..] + b;
      assert a[0] + (Join(a[1..]) + Join(b)) == a[0] + Join(a[1..]) + Join(b);
    }
  }

  lemma JoinSnoc(a: seq<seq<byte>>, x: seq<byte>)
    ensures Join(a + [x]) == Join(a) + x
  {
    JoinAppend(a, [x]);
    assert Join([x]) == x + Join([]);
  }

  /** A longer list of parts spells a longer stream. */
  lemma JoinMonotone(a: seq<seq<byte>>, b: seq<seq<byte>>)
    requires a <= b
    ensures Join(a) <= Join(b)
  {
    JoinAppend(a, b[|a|..]);
    assert b == a + b[|a|..];
  }
}
