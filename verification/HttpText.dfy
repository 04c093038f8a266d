/** The HTTP text that crosses the file-transfer connections: lines, heads and the server's replies. */
module HttpText {
  import opened Streams

  const LF: byte := 10
  const CR: byte := 13

  /** Longest line either side buffers: `recv_buff_len` while a head is read. */
  const LINE_BUFFER: nat := 4096

  predicate NoLf(s: seq<byte>) {
    forall i :: 0 <= i < |s| ==> s[i] != LF
  }

  /** A line as the readers deliver it: it ends with its only newline. */
  predicate IsLine(s: seq<byte>) {
    |s| > 0 && s[|s| - 1] == LF && NoLf(s[..|s| - 1])
  }

  /** A bare newline or a bare carriage-return newline ends a head. */
  predicate Blank(line: seq<byte>) {
    line == [LF] || line == [CR, LF]
  }

  /** Position `p` of a stream is just behind a blank line, said without cutting it into lines. */
  predicate BlankAt(s: seq<byte>, p: nat) {
    && 1 <= p <= |s|
    && s[p - 1] == LF
    && (p == 1 || s[p - 2] == LF || (s[p - 2] == CR && (p == 2 || s[p - 3] == LF)))
  }

  /** `p` is where the head of the stream ends: the first blank line. */
  ghost predicate HeadEnds(s: seq<byte>, p: nat) {
    BlankAt(s, p) && forall q :: 0 <= q < p ==> !BlankAt(s, q)
  }

  function Digit(d: nat): byte
    requires d < 10
  {
    48 + d
  }

  /** `operator<<` for an unsigned number. */
  function Decimal(n: nat): (r: seq<byte>)
    ensures |r| > 0
    ensures forall i :: 0 <= i < |r| ==> 48 <= r[i] <= 57
  {
    if n < 10 then [Digit(n)] else Decimal(n / 10) + [Digit(n % 10)]
  }

  /** Which number a row of digits is, read in base ten. */
  function Reading(digits: seq<byte>): int {
    if digits == [] then 0 else 10 * Reading(digits[..|digits| - 1]) + (digits[|digits| - 1] as int - 48)
  }

  /** The text of a number reads as that number, and has no leading zero. */
  lemma {:induction false} DecimalReads(n: nat)
    ensures Reading(Decimal(n)) == n
    ensures Decimal(n)[0] == 48 <==> n == 0
    ensures n < 10 ==> |Decimal(n)| == 1
    decreases n
  {
    var digits := Decimal(n);
    var last := |digits| - 1;
    if n < 10 {
      assert digits[..last] == [] && Reading([]) == 0;
    } else {
      DecimalReads(n / 10);
      assert digits[..last] == Decimal(n / 10) && digits[last] == Digit(n % 10);
    }
  }

  const CRLF: seq<byte> := [CR, LF]

  /** Header lines and the blank line that ends them. */
  function HeadOf(texts: seq<seq<byte>>): (r: seq<byte>)
    ensures r != []
  {
    if texts == [] then CRLF else (texts[0] + CRLF) + HeadOf(texts[1..])
  }

  function RangeText(offset: nat, size: nat): seq<byte> {
    Ascii("Content-Range: bytes ") + Decimal(offset) + Ascii("-") + LastPos(size) + Ascii("/") + Decimal(size)
  }

  /** The reply to a successful open: 200 from the start of the file, 206 from an offset.  Both
      announce the size of the whole file. */
  function ReplyTexts(offset: nat, size: nat): seq<seq<byte>> {
    (if offset == 0 then [Ascii("HTTP/1.1 200 OK")]
     else [Ascii("HTTP/1.1 206 Partial Content"), RangeText(offset, size)])
    + [Ascii("Content-Length: ") + Decimal(size), Ascii("Server: http-utp server")]
  }

  function ReplyHead(offset: nat, size: nat): (r: seq<byte>)
    ensures r != []
  {
    HeadOf(ReplyTexts(offset, size))
  }

  /** `file_size_ - 1` in 64-bit unsigned arithmetic. */
  function LastPos(size: nat): seq<byte> {
    Decimal(if size == 0 then 0xFFFF_FFFF_FFFF_FFFF else size - 1)
  }

  function NotFoundReply(): (r: seq<byte>)
    ensures r != []
  {
    Ascii("HTTP/1.1 404 ERROR open_file_failed") + CRLF + CRLF + [LF]
  }

  function BadRequestReply(message: seq<byte>): (r: seq<byte>)
    ensures r != []
  {
    Ascii("HTTP/1.1 400 ERROR") + message + CRLF + CRLF + [LF]
  }

  ghost predicate NoBlank(s: seq<byte>) {
    forall q: nat :: !BlankAt(s, q)
  }

  /** A line completed after whole lines: the only new place a head could end is its end. */
  lemma LineEnds(lines: seq<byte>, line: seq<byte>)
    requires lines == [] || lines[|lines| - 1] == LF
    requires IsLine(line) && NoBlank(lines)
    ensures if Blank(line) then HeadEnds(lines + line, |lines + line|) else NoBlank(lines + line)
  {
    var s := lines + line;
    forall q: nat | q < |s| ensures !BlankAt(s, q) {
      if q <= |lines| {
        assert !BlankAt(lines, q);
      } else {
        assert s[q - 1] == line[..|line| - 1][q - 1 - |lines|];
      }
    }
    if |line| >= 2 { assert s[|s| - 2] == line[..|line| - 1][|line| - 2]; }
    if |line| >= 3 { assert s[|s| - 3] == line[..|line| - 1][|line| - 3]; }
    assert BlankAt(s, |s|) <==> Blank(line);
  }

  /** A head ends with a bare newline behind a newline, and just as well with carriage returns. */
  lemma HeadsEndEitherWay()
    ensures HeadEnds([65, LF, LF], 3) && HeadEnds([65, CR, LF, CR, LF], 5)
    ensures NoBlank([65, CR, LF, CR]) && NoBlank([65, LF, CR])
  {
  }

  /** Whole lines followed by the start of a line contain no other place for a head to end. */
  lemma NoBlankInPartialLine(lines: seq<byte>, buf: seq<byte>)
    requires NoBlank(lines) && NoLf(buf)
    ensures NoBlank(lines + buf)
  {
    forall q: nat ensures !BlankAt(lines + buf, q) {
      if q > |lines| && q <= |lines + buf| {
        assert (lines + buf)[q - 1] == buf[q - 1 - |lines|];
      } else {
        assert !BlankAt(lines, q);
      }
    }
  }

  lemma TextIsLine(text: seq<byte>)
    requires NoLf(text) && text != []
    ensures IsLine(text + CRLF) && !Blank(text + CRLF)
  {
    var line := text + CRLF;
    assert line[..|line| - 1] == text + [CR];
  }

  lemma HeadEndsInPrefix(s: seq<byte>, t: seq<byte>, p: nat)
    requires s <= t && p <= |s|
    ensures HeadEnds(s, p) <==> HeadEnds(t, p)
  {
    assert forall q: nat :: q <= p ==> (BlankAt(s, q) <==> BlankAt(t, q));
  }

  lemma HeadEndsOnce(s: seq<byte>, p: nat, q: nat)
    requires HeadEnds(s, p) && HeadEnds(s, q)
    ensures p == q
  {
  }

  lemma LineAppends(lines: seq<byte>, text: seq<byte>)
    requires NoBlank(lines) && (lines == [] || lines[|lines| - 1] == LF)
    requires NoLf(text) && text != []
    ensures NoBlank(lines + (text + CRLF))
    ensures var s := lines + (text + CRLF); s[|s| - 1] == LF
  {
    TextIsLine(text);
    LineEnds(lines, text + CRLF);
  }

  lemma AsciiHasNoLf(s: string)
    requires forall i :: 0 <= i < |s| ==> (s[i] as int) % 256 != 10
    ensures NoLf(Ascii(s))
  {
  }

  /** Header lines followed by a blank line are a head, wherever whole lines precede them. */
  lemma {:induction false} HeadOfEnds(lines: seq<byte>, texts: seq<seq<byte>>)
    requires NoBlank(lines) && (lines == [] || lines[|lines| - 1] == LF)
    requires forall i :: 0 <= i < |texts| ==> NoLf(texts[i]) && texts[i] != []
    ensures HeadEnds(lines + HeadOf(texts), |lines + HeadOf(texts)|)
    decreases |texts|
  {
    if texts == [] {
      assert CRLF[..1] == [CR];
      LineEnds(lines, CRLF);
    } else {
      hide NoBlank, HeadEnds, NoLf;
      LineAppends(lines, texts[0]);
      HeadOfEnds(lines + (texts[0] + CRLF), texts[1..]);
      assert lines + HeadOf(texts) == lines + (texts[0] + CRLF) + HeadOf(texts[1..]);
    }
  }

  lemma ReplyTextsAreLines(offset: nat, size: nat)
    ensures forall i :: 0 <= i < |ReplyTexts(offset, size)| ==>
              NoLf(ReplyTexts(offset, size)[i]) && ReplyTexts(offset, size)[i] != []
  {
    AsciiHasNoLf("HTTP/1.1 200 OK");
    AsciiHasNoLf("HTTP/1.1 206 Partial Content");
    AsciiHasNoLf("Content-Range: bytes ");
    AsciiHasNoLf("-");
    AsciiHasNoLf("/");
    AsciiHasNoLf("Content-Length: ");
    AsciiHasNoLf("Server: http-utp server");
    hide Decimal, Ascii;
  }

  /** The reply head is a head: its only blank line is its last. */
  lemma ReplyHeadEnds(offset: nat, size: nat)
    ensures HeadEnds(ReplyHead(offset, size), |ReplyHead(offset, size)|)
  {
    ReplyTextsAreLines(offset, size);
    HeadOfEnds([], ReplyTexts(offset, size));
    assert [] + ReplyHead(offset, size) == ReplyHead(offset, size);
  }

  lemma {:induction false} DecimalInjective(a: nat, b: nat)
    requires Decimal(a) == Decimal(b)
    ensures a == b
    decreases a
  {
    var last := |Decimal(a)| - 1;
    if a >= 10 && b >= 10 {
      assert Decimal(a)[..last] == Decimal(a / 10) && Decimal(b)[..last] == Decimal(b / 10);
      assert Decimal(a)[last] == Digit(a % 10) && Decimal(b)[last] == Digit(b % 10);
      DecimalInjective(a / 10, b / 10);
    }
  }

  /** A success head says what it says only through the number in it. */
  lemma ReplyHeadShape(size: nat)
    ensures ReplyHead(0, size)
         == (Ascii("HTTP/1.1 200 OK") + CRLF + Ascii("Content-Length: "))
            + (Decimal(size) + (CRLF + (Ascii("Server: http-utp server") + CRLF + CRLF)))
  {
    hide Decimal, Ascii;
    var texts: seq<seq<byte>> := ReplyTexts(0, size);
    assert texts[1..][1..] == [Ascii("Server: http-utp server")];
    assert texts[1..][1..][1..] == [];
    assert HeadOf(texts[1..][1..]) == Ascii("Server: http-utp server") + CRLF + CRLF;
    assert HeadOf(texts[1..]) == Ascii("Content-Length: ") + Decimal(size) + CRLF + HeadOf(texts[1..][1..]);
  }

  lemma RangeHeadShape(offset: nat, size: nat)
    requires offset > 0
    ensures ReplyHead(offset, size)
         == (Ascii("HTTP/1.1 206 Partial Content") + CRLF)
            + ((Ascii("Content-Range: bytes ") + Decimal(offset) + Ascii("-") + LastPos(size) + Ascii("/")
                + Decimal(size) + CRLF)
               + ((Ascii("Content-Length: ") + Decimal(size) + CRLF)
                  + (Ascii("Server: http-utp server") + CRLF + CRLF)))
  {
    hide Decimal, Ascii, LastPos;
    var texts: seq<seq<byte>> := ReplyTexts(offset, size);
    assert texts[1..][1..][1..] == [Ascii("Server: http-utp server")];
    assert texts[1..][1..][1..][1..] == [];
    assert HeadOf(texts[1..][1..][1..]) == Ascii("Server: http-utp server") + CRLF + CRLF;
    assert HeadOf(texts[1..][1..])
        == Ascii("Content-Length: ") + Decimal(size) + CRLF + HeadOf(texts[1..][1..][1..]);
    assert HeadOf(texts[1..]) == RangeText(offset, size) + CRLF + HeadOf(texts[1..][1..]);
  }

  /** The last position of a file, in 64 bits: of an empty file it is the largest there is. */
  lemma LastPosReads(size: nat)
    requires size < 0x1_0000_0000_0000_0000
    ensures Reading(LastPos(size)) == (size - 1) % 0x1_0000_0000_0000_0000
  {
    DecimalReads(if size == 0 then 0xFFFF_FFFF_FFFF_FFFF else size - 1);
  }

  // The replies, letter by letter.

  lemma AsciiAppend(a: string, b: string)
    ensures Ascii(a + b) == Ascii(a) + Ascii(b)
  {
  }

  lemma AsciiNumbers()
    ensures Ascii("\r\n") == CRLF && Ascii("\n") == [LF]
    ensures Ascii("1") == Decimal(1) && Ascii("2") == Decimal(2) && Ascii("12") == Decimal(12)
  {
  }

  lemma TwelveBytes()
    ensures ReplyHead(0, 12)
         == Ascii("HTTP/1.1 200 OK" + "\r\n" + "Content-Length: " + "12" + "\r\n"
                  + "Server: http-utp server" + "\r\n" + "\r\n")
  {
    ReplyHeadShape(12);
    AsciiNumbers();
    hide ReplyHead, Ascii, Decimal;
    AsciiAppend("HTTP/1.1 200 OK", "\r\n");
    AsciiAppend("HTTP/1.1 200 OK" + "\r\n", "Content-Length: ");
    var a := "HTTP/1.1 200 OK" + "\r\n" + "Content-Length: ";
    AsciiAppend(a, "12");
    AsciiAppend(a + "12", "\r\n");
    AsciiAppend(a + "12" + "\r\n", "Server: http-utp server");
    AsciiAppend(a + "12" + "\r\n" + "Server: http-utp server", "\r\n");
    AsciiAppend(a + "12" + "\r\n" + "Server: http-utp server" + "\r\n", "\r\n");
  }

  /** From offset 1 of a file of two bytes: the range is the last byte, the length that of the file. */
  lemma SecondOfTwoBytes()
    ensures ReplyHead(1, 2)
         == Ascii("HTTP/1.1 206 Partial Content" + "\r\n")
            + (Ascii("Content-Range: bytes " + "1" + "-" + "1" + "/" + "2" + "\r\n")
               + (Ascii("Content-Length: " + "2" + "\r\n") + Ascii("Server: http-utp server" + "\r\n" + "\r\n")))
  {
    RangeHeadShape(1, 2);
    AsciiNumbers();
    assert LastPos(2) == Decimal(1);
    hide ReplyHead, Ascii, Decimal, LastPos;
    AsciiAppend("HTTP/1.1 206 Partial Content", "\r\n");
    var range := "Content-Range: bytes ";
    AsciiAppend(range, "1");
    AsciiAppend(range + "1", "-");
    AsciiAppend(range + "1" + "-", "1");
    AsciiAppend(range + "1" + "-" + "1", "/");
    AsciiAppend(range + "1" + "-" + "1" + "/", "2");
    AsciiAppend(range + "1" + "-" + "1" + "/" + "2", "\r\n");
    AsciiAppend("Content-Length: ", "2");
    AsciiAppend("Content-Length: " + "2", "\r\n");
    AsciiAppend("Server: http-utp server", "\r\n");
    AsciiAppend("Server: http-utp server" + "\r\n", "\r\n");
  }

  lemma ErrorReplies(message: string)
    ensures NotFoundReply() == Ascii("HTTP/1.1 404 ERROR open_file_failed" + "\r\n" + "\r\n" + "\n")
    ensures BadRequestReply(Ascii(message)) == Ascii("HTTP/1.1 400 ERROR" + message + "\r\n" + "\r\n" + "\n")
  {
    AsciiNumbers();
    hide Ascii;
    var a, b := "HTTP/1.1 404 ERROR open_file_failed", "HTTP/1.1 400 ERROR";
    AsciiAppend(a, "\r\n");
    AsciiAppend(a + "\r\n", "\r\n");
    AsciiAppend(a + "\r\n" + "\r\n", "\n");
    AsciiAppend(b, message);
    AsciiAppend(b + message, "\r\n");
    AsciiAppend(b + message + "\r\n", "\r\n");
    AsciiAppend(b + message + "\r\n" + "\r\n", "\n");
  }

  /** Heads for different sizes differ, so a decoder can tell them apart. */
  lemma ReplyHeadInjective(a: nat, b: nat)
    requires ReplyHead(0, a) == ReplyHead(0, b)
    ensures a == b
  {
    ReplyHeadShape(a);
    ReplyHeadShape(b);
    hide ReplyHead, Decimal, Ascii;
    var before := Ascii("HTTP/1.1 200 OK") + CRLF + Ascii("Content-Length: ");
    var behind := CRLF + (Ascii("Server: http-utp server") + CRLF + CRLF);
    SameEnds(before, Decimal(a), Decimal(b), behind);
    DecimalInjective(a, b);
  }

  lemma SameEnds(before: seq<byte>, x: seq<byte>, y: seq<byte>, behind: seq<byte>)
    requires before + (x + behind) == before + (y + behind)
    ensures x == y
  {
    var s := before + (x + behind);
    assert |x| == |y|;
    assert x == s[|before|..|before| + |x|] == y;
  }
}
