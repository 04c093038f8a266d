/** `split_string`: the words of a text. */
module Tokenizer {

  const WHITE_SPACE := " \t\n\r\U{0C}"

  predicate White(c: char) { c in WHITE_SPACE }

  /** Space, tab, newline, carriage return and form feed, and nothing else. */
  lemma WhiteIs(c: char)
    ensures White(c) <==> c == ' ' || c == '\t' || c == '\n' || c == '\r' || c as int == 12
  {
  }

  /** No white space, and something. */
  predicate Token(t: string) { t != "" && forall i :: 0 <= i < |t| ==> !White(t[i]) }

  /** `src[i..j]` is a word that no neighbouring character extends. */
  predicate MaximalRun(src: string, i: nat, j: nat) {
    && i < j <= |src|
    && (forall k :: i <= k < j ==> !White(src[k]))
    && (i > 0 ==> White(src[i - 1]))
    && (j < |src| ==> White(src[j]))
  }

  /** `find_first_not_of` and `find_first_of` from a position on; the length stands for `npos`. */
  method FindFirst(src: string, from: nat, white: bool) returns (pos: nat)
    requires from <= |src|
    ensures from <= pos <= |src|
    ensures forall k :: from <= k < pos ==> White(src[k]) != white
    ensures pos < |src| ==> White(src[pos]) == white
  {
    pos := from;
    while pos < |src| && White(src[pos]) != white
      invariant from <= pos <= |src|
      invariant forall k :: from <= k < pos ==> White(src[k]) != white
    {
      pos := pos + 1;
    }
  }

  /** A word in the text. */
  datatype Run = Run(start: nat, end: nat)

  /** The runs are exactly the maximal ones that begin before `upto`, in order. */
  ghost predicate AllRuns(src: string, runs: seq<Run>, upto: nat) {
    && (forall n :: 0 <= n < |runs| ==> MaximalRun(src, runs[n].start, runs[n].end))
    && (forall m, n :: 0 <= m < n < |runs| ==> runs[m].end < runs[n].start)
    && (forall i: nat, j: nat :: MaximalRun(src, i, j) && i < upto ==> Run(i, j) in runs)
  }

  /** The tokens are the words at these runs. */
  ghost predicate Spells(src: string, runs: seq<Run>, tokens: seq<string>) {
    && |tokens| == |runs|
    && forall n :: 0 <= n < |tokens| ==>
         runs[n].start <= runs[n].end <= |src| && tokens[n] == src[runs[n].start..runs[n].end]
  }

  /** The tokens are every maximal run of characters that are not white space, once and in order. */
  ghost predicate IsSplit(src: string, tokens: seq<string>) {
    exists runs :: AllRuns(src, runs, |src|) && Spells(src, runs, tokens)
  }

  /** `split_string`. */
  method SplitString(src: string) returns (tokens: seq<string>)
    ensures IsSplit(src, tokens)
  {
    tokens := [];
    ghost var runs := [];
    var lastPos := 0;
    while lastPos <= |src|
      invariant lastPos <= |src|
      invariant 0 < lastPos < |src| ==> White(src[lastPos])
      invariant AllRuns(src, runs, lastPos) && Spells(src, runs, tokens)
      invariant forall n :: 0 <= n < |runs| ==> runs[n].end <= lastPos
      decreases |src| - lastPos
    {
      var start := FindFirst(src, lastPos, false);
      if start == |src| {
        NoMoreRuns(src, runs, lastPos);
        return;
      }
      var pos := FindFirst(src, start, true);
      NextRun(src, runs, lastPos, start, pos);
      tokens := tokens + [src[start..pos]];
      runs := runs + [Run(start, pos)];
      if pos == |src| {
        return;
      }
      lastPos := pos;
    }
  }

  lemma NextRun(src: string, runs: seq<Run>, lastPos: nat, start: nat, pos: nat)
    requires AllRuns(src, runs, lastPos) && lastPos <= start < pos <= |src|
    requires forall n :: 0 <= n < |runs| ==> runs[n].end <= lastPos
    requires 0 < lastPos < |src| ==> White(src[lastPos])
    requires forall k :: lastPos <= k < start ==> White(src[k])
    requires forall k :: start <= k < pos ==> !White(src[k])
    requires pos < |src| ==> White(src[pos])
    ensures AllRuns(src, runs + [Run(start, pos)], pos)
    ensures forall n :: 0 <= n < |runs| ==> runs[n].end < start
  {
    forall n | 0 <= n < |runs| ensures runs[n].end < start {
      assert MaximalRun(src, runs[n].start, runs[n].end);
    }
    if start > 0 {
      assert White(src[start - 1]) by {
        if start == lastPos { assert false; }
      }
    }
    assert MaximalRun(src, start, pos);
    forall i: nat, j: nat | MaximalRun(src, i, j) && i < pos ensures Run(i, j) in runs + [Run(start, pos)] {
      if i >= lastPos {
        RunStartsAt(src, i, j, start, pos);
        assert (runs + [Run(start, pos)])[|runs|] == Run(i, j);
      }
    }
  }

  /** A maximal run that begins inside `[start, pos)` is all of it. */
  lemma RunStartsAt(src: string, i: nat, j: nat, start: nat, pos: nat)
    requires MaximalRun(src, i, j) && MaximalRun(src, start, pos) && i < pos
    requires i >= start || White(src[i])
    ensures i == start && j == pos
  {
    var before := i > 0 && White(src[i - 1]);
    var atJ := j < |src| && White(src[j]);
    var atPos := pos < |src| && White(src[pos]);
    assert !White(src[i]);
  }

  lemma NoMoreRuns(src: string, runs: seq<Run>, lastPos: nat)
    requires AllRuns(src, runs, lastPos) && forall k :: lastPos <= k < |src| ==> White(src[k])
    ensures AllRuns(src, runs, |src|)
  {
    forall i: nat, j: nat | MaximalRun(src, i, j) ensures i < lastPos {
      assert !White(src[i]);
    }
  }

  /** Words joined by single spaces. */
  function JoinWords(ts: seq<string>): string {
    if ts == [] then "" else if |ts| == 1 then ts[0] else ts[0] + " " + JoinWords(ts[1..])
  }

  /** Where the words of such a text are, when it begins at `off`. */
  function RunsAt(ts: seq<string>, off: nat): seq<Run> {
    if ts == [] then [] else [Run(off, off + |ts[0]|)] + RunsAt(ts[1..], off + |ts[0]| + 1)
  }

  /** `runs` are all the words from `off` on, in order, and they spell `ts`. */
  ghost predicate Words(src: string, runs: seq<Run>, off: nat, ts: seq<string>) {
    && |runs| == |ts|
    && (forall n :: 0 <= n < |runs| ==>
          && off <= runs[n].start && MaximalRun(src, runs[n].start, runs[n].end)
          && src[runs[n].start..runs[n].end] == ts[n])
    && (forall m, n :: 0 <= m < n < |runs| ==> runs[m].end < runs[n].start)
    && (forall i: nat, j: nat :: MaximalRun(src, i, j) && off <= i ==> Run(i, j) in runs)
  }

  lemma {:induction false} WordsOfJoin(src: string, off: nat, ts: seq<string>)
    requires off <= |src| && src[off..] == JoinWords(ts) && (off > 0 ==> White(src[off - 1]))
    requires forall n :: 0 <= n < |ts| ==> Token(ts[n])
    ensures Words(src, RunsAt(ts, off), off, ts)
    decreases |ts|
  {
    hide *;
    if ts == [] {
      NoWords(src, off);
    } else {
      TextBegins(src, off, ts);
      RunsBegin(ts, off);
      if |ts| > 1 {
        SpaceIsWhite();
        forall n | 0 <= n < |ts[1..]| ensures Token(ts[1..][n]) {
          assert ts[1..][n] == ts[n + 1];
        }
        WordsOfJoin(src, off + |ts[0]| + 1, ts[1..]);
      }
      FollowsWhen(src, off + |ts[0]|, ts, RunsAt(ts[1..], off + |ts[0]| + 1));
      FirstWord(src, off, ts, RunsAt(ts[1..], off + |ts[0]| + 1));
    }
  }

  lemma NoWords(src: string, off: nat)
    requires off <= |src| && src[off..] == JoinWords([])
    ensures Words(src, RunsAt([], off), off, [])
  {
    assert off == |src|;
  }

  lemma RunsBegin(ts: seq<string>, off: nat)
    requires ts != []
    ensures RunsAt(ts, off) == [Run(off, off + |ts[0]|)] + RunsAt(ts[1..], off + |ts[0]| + 1)
    ensures |ts| == 1 ==> RunsAt(ts[1..], off + |ts[0]| + 1) == []
  {
  }

  lemma FollowsWhen(src: string, e: nat, ts: seq<string>, rest: seq<Run>)
    requires ts != []
    requires |ts| == 1 ==> e == |src| && rest == []
    requires |ts| > 1 ==> e < |src| && White(src[e]) && Words(src, rest, e + 1, ts[1..])
    ensures Follows(src, e, ts, rest)
  {
  }

  lemma SpaceIsWhite()
    ensures White(' ')
  {
  }

  lemma TextBegins(src: string, off: nat, ts: seq<string>)
    requires off <= |src| && src[off..] == JoinWords(ts) && ts != []
    ensures off + |ts[0]| <= |src| && src[off..off + |ts[0]|] == ts[0]
    ensures |ts| == 1 ==> off + |ts[0]| == |src|
    ensures |ts| > 1 ==> off + |ts[0]| < |src| && src[off + |ts[0]|] == ' '
    ensures |ts| > 1 ==> src[off + |ts[0]| + 1..] == JoinWords(ts[1..])
  {
    var w := |ts[0]|;
    assert src[off..][..w] == ts[0];
    if |ts| > 1 {
      assert src[off..][w] == ' ' && src[off..][w + 1..] == JoinWords(ts[1..]);
      assert src[off + w + 1..] == src[off..][w + 1..];
    }
  }

  /** What comes after the first word: nothing, or white space and the other words. */
  ghost predicate Follows(src: string, e: nat, ts: seq<string>, rest: seq<Run>)
    requires ts != []
  {
    if |ts| == 1 then e == |src| && rest == []
    else e < |src| && White(src[e]) && Words(src, rest, e + 1, ts[1..])
  }

  lemma FirstWord(src: string, off: nat, ts: seq<string>, rest: seq<Run>)
    requires ts != [] && off + |ts[0]| <= |src| && Token(ts[0])
    requires off > 0 ==> White(src[off - 1])
    requires src[off..off + |ts[0]|] == ts[0] && Follows(src, off + |ts[0]|, ts, rest)
    ensures Words(src, [Run(off, off + |ts[0]|)] + rest, off, ts)
  {
    var e := off + |ts[0]|;
    FirstIsMaximal(src, off, ts, rest);
    FirstIsAll(src, off, e, ts, rest);
    hide MaximalRun, White, Token;
    var runs := [Run(off, e)] + rest;
    assert |rest| == |ts| - 1;
    forall n | 0 <= n < |runs|
      ensures off <= runs[n].start && MaximalRun(src, runs[n].start, runs[n].end)
      ensures src[runs[n].start..runs[n].end] == ts[n]
    {
      WordInFront(src, off, ts, rest, n);
    }
    forall m, n | 0 <= m < n < |runs| ensures runs[m].end < runs[n].start {
      OrderInFront(src, off, ts, rest, m, n);
    }
  }

  lemma WordInFront(src: string, off: nat, ts: seq<string>, rest: seq<Run>, n: nat)
    requires ts != [] && off + |ts[0]| <= |src| && Follows(src, off + |ts[0]|, ts, rest) && n <= |rest|
    requires src[off..off + |ts[0]|] == ts[0] && MaximalRun(src, off, off + |ts[0]|)
    ensures var run := ([Run(off, off + |ts[0]|)] + rest)[n];
      && n < |ts| && off <= run.start && MaximalRun(src, run.start, run.end) && src[run.start..run.end] == ts[n]
  {
    hide White;
    if n > 0 { assert ([Run(off, off + |ts[0]|)] + rest)[n] == rest[n - 1] && ts[n] == ts[1..][n - 1]; }
  }

  lemma OrderInFront(src: string, off: nat, ts: seq<string>, rest: seq<Run>, m: nat, n: nat)
    requires ts != [] && off + |ts[0]| <= |src| && Follows(src, off + |ts[0]|, ts, rest) && m < n <= |rest|
    ensures var runs := [Run(off, off + |ts[0]|)] + rest; runs[m].end < runs[n].start
  {
    hide MaximalRun, White;
    var runs := [Run(off, off + |ts[0]|)] + rest;
    assert runs[n] == rest[n - 1];
    if m > 0 { assert runs[m] == rest[m - 1]; }
  }

  lemma FirstIsMaximal(src: string, off: nat, ts: seq<string>, rest: seq<Run>)
    requires ts != [] && off + |ts[0]| <= |src| && Token(ts[0])
    requires off > 0 ==> White(src[off - 1])
    requires src[off..off + |ts[0]|] == ts[0] && Follows(src, off + |ts[0]|, ts, rest)
    ensures MaximalRun(src, off, off + |ts[0]|)
  {
    forall k | off <= k < off + |ts[0]| ensures !White(src[k]) {
      assert src[off..off + |ts[0]|][k - off] == src[k];
    }
  }

  lemma FirstIsAll(src: string, off: nat, e: nat, ts: seq<string>, rest: seq<Run>)
    requires ts != [] && MaximalRun(src, off, e) && Follows(src, e, ts, rest)
    ensures forall i: nat, j: nat :: MaximalRun(src, i, j) && off <= i ==> Run(i, j) in [Run(off, e)] + rest
  {
    forall i: nat, j: nat | MaximalRun(src, i, j) && off <= i ensures Run(i, j) in [Run(off, e)] + rest {
      assert !White(src[i]);
      if i < e {
        RunStartsAt(src, i, j, off, e);
      }
    }
  }

  /** An ordered list of runs is determined by its members. */
  lemma {:induction false} OrderedRunsAreUnique(a: seq<Run>, b: seq<Run>)
    requires forall n :: 0 <= n < |a| ==> a[n].start < a[n].end
    requires forall n :: 0 <= n < |b| ==> b[n].start < b[n].end
    requires forall m, n :: 0 <= m < n < |a| ==> a[m].end < a[n].start
    requires forall m, n :: 0 <= m < n < |b| ==> b[m].end < b[n].start
    requires forall r :: r in a <==> r in b
    ensures a == b
  {
    assert b != [] ==> b[0] in b && b[0] in a;
    if a == [] {
    } else {
      assert a[0] in b && b != [];
      assert b[0] in a;
      assert a[0] == b[0];
      forall r ensures r in a[1..] <==> r in b[1..] {
        assert r in a[1..] ==> r in a && r != a[0];
        assert r in b[1..] ==> r in b && r != b[0];
      }
      OrderedRunsAreUnique(a[1..], b[1..]);
      assert a == [a[0]] + a[1..] && b == [b[0]] + b[1..];
    }
  }

  /** A text has one split. */
  lemma RunsAreUnique(src: string, a: seq<Run>, b: seq<Run>)
    requires AllRuns(src, a, |src|) && AllRuns(src, b, |src|)
    ensures a == b
  {
    forall r: Run ensures r in a <==> r in b {
      if r in a || r in b { assert MaximalRun(src, r.start, r.end); }
    }
    OrderedRunsAreUnique(a, b);
  }

  lemma JoinIsSplit(ts: seq<string>)
    requires forall n :: 0 <= n < |ts| ==> Token(ts[n])
    ensures AllRuns(JoinWords(ts), RunsAt(ts, 0), |JoinWords(ts)|)
    ensures Spells(JoinWords(ts), RunsAt(ts, 0), ts)
  {
    assert JoinWords(ts)[0..] == JoinWords(ts);
    WordsOfJoin(JoinWords(ts), 0, ts);
    hide JoinWords, RunsAt;
  }

  /** Splitting words joined by single spaces returns the words, and nothing else. */
  lemma SplitOfJoin(ts: seq<string>, tokens: seq<string>)
    requires forall n :: 0 <= n < |ts| ==> Token(ts[n])
    ensures IsSplit(JoinWords(ts), tokens) <==> tokens == ts
  {
    JoinIsSplit(ts);
    hide JoinWords, RunsAt, AllRuns;
    var src := JoinWords(ts);
    if IsSplit(src, tokens) {
      var runs: seq<Run> :| AllRuns(src, runs, |src|) && Spells(src, runs, tokens);
      RunsAreUnique(src, runs, RunsAt(ts, 0));
    }
  }

  lemma RunIsToken(src: string, i: nat, j: nat)
    requires MaximalRun(src, i, j)
    ensures Token(src[i..j])
  {
  }

  /** Every piece is a token. */
  lemma PiecesAreTokens(src: string, tokens: seq<string>)
    requires IsSplit(src, tokens)
    ensures forall n :: 0 <= n < |tokens| ==> Token(tokens[n])
  {
    var runs: seq<Run> :| AllRuns(src, runs, |src|) && Spells(src, runs, tokens);
    hide MaximalRun, Token;
    forall n | 0 <= n < |tokens| ensures Token(tokens[n]) {
      assert MaximalRun(src, runs[n].start, runs[n].end);
      RunIsToken(src, runs[n].start, runs[n].end);
    }
  }
}
