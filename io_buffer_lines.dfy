/**
 * The CR LF line decoder `BufferLines` (package `io.huskit.common.io`).
 *
 * It pulls byte chunks from a source, keeps the bytes it has not yet handed
 * out, and returns one line per `Next` call, without its terminator. Bytes are
 * ASCII here, so a chunk is a `string` with one character per byte.
 */
module Io {
  import opened Wrappers
  import Text

  const CR: char := '\r'
  const LF: char := '\n'
  const Terminator: string := "\r\n"

  /** The message of the exception thrown when no terminator turns up in time. */
  function NoNewLineMessage(limit: nat): string
  {
    "Couldn't find new line after " + Text.NatToString(limit) + " reads"
  }

  /** A terminator starts at position `i` of `s`. */
  predicate TerminatorAt(s: string, i: int)
  {
    0 <= i && i + 1 < |s| && s[i] == CR && s[i + 1] == LF
  }

  predicate HasTerminator(s: string)
  {
    exists i :: 0 <= i < |s| && TerminatorAt(s, i)
  }

  /** Every line in `ls` is free of terminators. */
  predicate AllLineFree(ls: seq<string>)
  {
    forall i :: 0 <= i < |ls| ==> !HasTerminator(ls[i])
  }

  /** Position of the first terminator in `s`, or -1 when there is none. */
  function FirstTerminator(s: string): (k: int)
    ensures k == -1 || 0 <= k < |s| - 1
    decreases |s|
  {
    if |s| < 2 then -1
    else if s[0] == CR && s[1] == LF then 0
    else
      var k := FirstTerminator(s[1..]);
      if k == -1 then -1 else k + 1
  }

  /** `FirstTerminator` finds the leftmost terminator, and finds none only when there is none. */
  lemma {:induction false} FirstTerminatorSpec(s: string)
    ensures FirstTerminator(s) == -1 <==> !HasTerminator(s)
    ensures FirstTerminator(s) >= 0 ==>
      TerminatorAt(s, FirstTerminator(s)) && forall j :: 0 <= j < FirstTerminator(s) ==> !TerminatorAt(s, j)
    decreases |s|
  {
    if |s| < 2 {
      assert forall j :: !TerminatorAt(s, j);
    } else if s[0] == CR && s[1] == LF {
      assert TerminatorAt(s, 0);
    } else {
      FirstTerminatorSpec(s[1..]);
      assert !TerminatorAt(s, 0);
      assert forall j :: TerminatorAt(s[1..], j) ==> TerminatorAt(s, j + 1);
      assert forall j :: 1 <= j && TerminatorAt(s, j) ==> TerminatorAt(s[1..], j - 1);
      assert HasTerminator(s) ==> HasTerminator(s[1..]) by {
        if HasTerminator(s) {
          var i :| 0 <= i < |s| && TerminatorAt(s, i);
          assert i >= 1;
          assert TerminatorAt(s[1..], i - 1);
        }
      }
    }
  }

  /** The text a sequence of lines reads as: each line followed by its terminator. */
  function JoinLines(ls: seq<string>): string
  {
    if ls == [] then "" else ls[0] + Terminator + JoinLines(ls[1..])
  }

  /**
   * The reference decoder: the complete lines of `s`, split at each terminator
   * in turn, and the unterminated remainder.
   */
  function SplitLines(s: string): (r: (seq<string>, string))
    decreases |s|
  {
    var k := FirstTerminator(s);
    if k < 0 then ([], s)
    else
      var tail := SplitLines(s[k + 2..]);
      ([s[..k]] + tail.0, tail.1)
  }

  /** A line free of terminators is followed by the first terminator of the text. */
  lemma {:induction false} TerminatorAfterLine(line: string, rest: string)
    requires !HasTerminator(line)
    ensures FirstTerminator(line + Terminator + rest) == |line|
  {
    var s := line + Terminator + rest;
    FirstTerminatorSpec(s);
    assert TerminatorAt(s, |line|);
    forall j | 0 <= j < |line|
      ensures !TerminatorAt(s, j)
    {
      if j + 1 < |line| {
        assert !TerminatorAt(line, j);
      } else {
        assert s[j + 1] == CR;
      }
    }
  }

  /** A terminator-free line followed by a terminator is the first line of the text. */
  lemma SplitAfterLine(line: string, rest: string)
    requires !HasTerminator(line)
    ensures SplitLines(line + Terminator + rest) == ([line] + SplitLines(rest).0, SplitLines(rest).1)
  {
    var s := line + Terminator + rest;
    TerminatorAfterLine(line, rest);
    assert s[..|line|] == line;
    assert s[|line| + 2..] == rest;
  }

  /**
   * Decoding does not depend on how the text was put together: the text of
   * some terminator-free lines followed by anything splits into those lines
   * first.
   */
  lemma {:induction false} SplitJoined(ls: seq<string>, rest: string)
    requires AllLineFree(ls)
    ensures SplitLines(JoinLines(ls) + rest) == (ls + SplitLines(rest).0, SplitLines(rest).1)
  {
    if ls != [] {
      AllLineFreeTail(ls);
      SplitJoined(ls[1..], rest);
      SplitFirstLine(ls, rest);
    } else {
      assert JoinLines(ls) + rest == rest;
      assert ls + SplitLines(rest).0 == SplitLines(rest).0;
    }
  }

  /** The text of some lines splits into the first line and the split of the text of the others. */
  lemma SplitFirstLine(ls: seq<string>, rest: string)
    requires ls != [] && !HasTerminator(ls[0])
    requires SplitLines(JoinLines(ls[1..]) + rest) == (ls[1..] + SplitLines(rest).0, SplitLines(rest).1)
    ensures SplitLines(JoinLines(ls) + rest) == (ls + SplitLines(rest).0, SplitLines(rest).1)
  {
    JoinFirst(ls, rest);
    SplitAfterLine(ls[0], JoinLines(ls[1..]) + rest);
    ConsAppend(ls, SplitLines(rest).0);
  }

  /** The text of some lines is the first line, a terminator and the text of the others. */
  lemma JoinFirst(ls: seq<string>, rest: string)
    requires ls != []
    ensures JoinLines(ls) + rest == ls[0] + Terminator + (JoinLines(ls[1..]) + rest)
  {
  }

  lemma ConsAppend<T>(ls: seq<T>, after: seq<T>)
    requires ls != []
    ensures [ls[0]] + (ls[1..] + after) == ls + after
  {
    assert ls == [ls[0]] + ls[1..];
  }

  lemma AllLineFreeTail(ls: seq<string>)
    requires ls != [] && AllLineFree(ls)
    ensures !HasTerminator(ls[0]) && AllLineFree(ls[1..])
  {
    forall i | 0 <= i < |ls[1..]| ensures !HasTerminator(ls[1..][i]) {
      assert ls[1..][i] == ls[i + 1];
    }
  }

  lemma {:induction false} JoinLinesSnoc(ls: seq<string>, line: string)
    ensures JoinLines(ls + [line]) == JoinLines(ls) + line + Terminator
  {
    if ls != [] {
      assert (ls + [line])[1..] == ls[1..] + [line];
      JoinLinesSnoc(ls[1..], line);
    } else {
      assert ls + [line] == [line];
    }
  }

  /** The bytes a source yields on pulls `from` up to, not including, `to`. */
  function Pulled(source: nat -> string, from: nat, to: nat): string
    decreases to
  {
    if to <= from then "" else Pulled(source, from, to - 1) + source(to - 1)
  }

  /** One more pull appends that pull's chunk. */
  lemma PullStep(source: nat -> string, prefix: string, from: nat, n: nat, text: string)
    requires from <= n && text == prefix + Pulled(source, from, n)
    ensures text + source(n) == prefix + Pulled(source, from, n + 1)
  {
    assert Pulled(source, from, n + 1) == Pulled(source, from, n) + source(n);
  }

  /** A pull is made only when the bytes at hand hold no terminator; it appends that pull's chunk. */
  lemma PullMore(source: nat -> string, start: string, from: nat, n: nat, buf: string)
    requires from <= n && buf == start + Pulled(source, from, n) && FirstTerminator(buf) < 0
    ensures buf + source(n) == start + Pulled(source, from, n + 1)
    ensures !HasTerminator(start + Pulled(source, from, n))
  {
    FirstTerminatorSpec(buf);
    PullStep(source, start, from, n, buf);
  }

  /** Pulling more only extends what was pulled. */
  lemma {:induction false} PulledPrefix(source: nat -> string, from: nat, m: nat, n: nat)
    requires from <= m <= n
    ensures Pulled(source, from, m) <= Pulled(source, from, n)
    decreases n
  {
    if m < n {
      PulledPrefix(source, from, m, n - 1);
    }
  }

  lemma TerminatorInPrefix(p: string, s: string)
    requires p <= s && HasTerminator(p)
    ensures HasTerminator(s)
  {
    var i :| 0 <= i < |p| && TerminatorAt(p, i);
    assert s[..|p|] == p;
    assert s[i] == p[i] && s[i + 1] == p[i + 1];
    assert TerminatorAt(s, i);
  }

  /** Handing out the text before the first terminator keeps the decoder's invariant. */
  lemma ExtractLine(lines: seq<string>, buffer: string, k: int)
    requires k >= 0 && k == FirstTerminator(buffer)
    ensures !HasTerminator(buffer[..k])
    ensures buffer[..k] + Terminator + buffer[k + 2..] == buffer
    ensures JoinLines(lines + [buffer[..k]]) + buffer[k + 2..] == JoinLines(lines) + buffer
  {
    var line := buffer[..k];
    FirstTerminatorSpec(buffer);
    assert buffer == line + Terminator + buffer[k + 2..];
    forall j | 0 <= j < |line| && TerminatorAt(line, j) ensures false {
      assert TerminatorAt(buffer, j);
    }
    JoinLinesSnoc(lines, line);
  }

  /** Pulls over consecutive ranges join up. */
  lemma {:induction false} PulledSplit(source: nat -> string, from: nat, mid: nat, last: nat)
    requires from <= mid <= last
    ensures Pulled(source, from, last) == Pulled(source, from, mid) + Pulled(source, mid, last)
    decreases last
  {
    if last > mid {
      PulledSplit(source, from, mid, last - 1);
    }
  }

  /**
   * The retry loop of `BufferLines.next`: starting from the retained bytes
   * `start`, with `from` chunks already pulled, appends one pulled chunk at a
   * time while the bytes at hand hold no terminator, at most `limit` times.
   * Returns the bytes at hand, the new pull count and the position of the
   * first terminator (-1 when the ceiling was reached without one).
   */
  method PullUntilTerminator(source: nat -> string, start: string, from: nat, limit: nat)
    returns (buf: string, n: nat, k: int)
    ensures from <= n <= from + limit
    ensures buf == start + Pulled(source, from, n)
    ensures k == FirstTerminator(buf)
    ensures k < 0 ==> n == from + limit
    // no chunk is pulled once a terminator is at hand
    ensures n > from ==> !HasTerminator(start + Pulled(source, from, n - 1))
  {
    buf, n := start, from;
    var ceiling := from + limit;
    k := FirstTerminator(buf);
    // the bytes at hand before the latest pull
    ghost var before := buf;
    while k < 0 && n < ceiling
      invariant from <= n <= ceiling
      invariant buf == start + Pulled(source, from, n)
      invariant k == FirstTerminator(buf)
      invariant n > from ==> before == start + Pulled(source, from, n - 1) && !HasTerminator(before)
      decreases ceiling - n
    {
      PullMore(source, start, from, n, buf);
      before := buf;
      buf, n := buf + source(n), n + 1;
      k := FirstTerminator(buf);
    }
  }

  /** A terminator in some pulled text is still there after more pulls. */
  lemma TerminatorStays(source: nat -> string, start: string, from: nat, m: nat, n: nat)
    requires from <= m <= n && HasTerminator(start + Pulled(source, from, m))
    ensures HasTerminator(start + Pulled(source, from, n))
  {
    PulledPrefix(source, from, m, n);
    TerminatorInPrefix(start + Pulled(source, from, m), start + Pulled(source, from, n));
  }

  /**
   * The pull count a minimal scan stops at is determined: it is the fewest
   * pulls after which the bytes at hand hold a terminator.
   */
  lemma LeastPullUnique(source: nat -> string, start: string, from: nat, m: nat, n: nat)
    requires from <= m && HasTerminator(start + Pulled(source, from, m))
    requires m > from ==> !HasTerminator(start + Pulled(source, from, m - 1))
    requires from <= n && HasTerminator(start + Pulled(source, from, n))
    requires n > from ==> !HasTerminator(start + Pulled(source, from, n - 1))
    ensures n == m
  {
    if n < m {
      TerminatorStays(source, start, from, n, m - 1);
    } else if m < n {
      TerminatorStays(source, start, from, m, n - 1);
    }
  }

  /** A terminator-free line followed by a terminator is what precedes the first terminator. */
  lemma LineIsFirst(text: string, line: string, rest: string)
    requires !HasTerminator(line) && line + Terminator + rest == text
    ensures HasTerminator(text) && FirstTerminator(text) == |line|
    ensures line == text[..|line|] && rest == text[|line| + 2..]
  {
    TerminatorAfterLine(line, rest);
    FirstTerminatorSpec(text);
    assert text[..|line|] == line;
    assert text[|line| + 2..] == rest;
  }

  /** Text without a carriage return has no terminator. */
  predicate NoCR(s: string)
  {
    forall i :: 0 <= i < |s| ==> s[i] != CR
  }

  /** Text without a line feed has no terminator. */
  predicate NoLF(s: string)
  {
    forall i :: 0 <= i < |s| ==> s[i] != LF
  }

  lemma NoCRNoTerminator(s: string)
    requires NoCR(s)
    ensures !HasTerminator(s)
  {
    forall i | 0 <= i < |s| ensures !TerminatorAt(s, i) {
      assert s[i] != CR;
    }
  }

  lemma NoLFNoTerminator(s: string)
    requires NoLF(s)
    ensures !HasTerminator(s)
  {
    forall i | 0 <= i < |s| ensures !TerminatorAt(s, i) {
      if i + 1 < |s| {
        assert s[i + 1] != LF;
      }
    }
  }

  /** Chunks without carriage returns pull text without carriage returns. */
  lemma {:induction false} PulledNoCR(source: nat -> string, start: string, from: nat, n: nat)
    requires NoCR(start) && forall j: nat :: from <= j ==> NoCR(source(j))
    ensures NoCR(start + Pulled(source, from, n))
    decreases n
  {
    if n > from {
      PulledNoCR(source, start, from, n - 1);
      var prev := start + Pulled(source, from, n - 1);
      assert start + Pulled(source, from, n) == prev + source(n - 1);
      assert NoCR(source(n - 1));
    }
  }

  /** Chunks without line feeds pull text without line feeds. */
  lemma {:induction false} PulledNoLF(source: nat -> string, start: string, from: nat, n: nat)
    requires NoLF(start) && forall j: nat :: from <= j ==> NoLF(source(j))
    ensures NoLF(start + Pulled(source, from, n))
    decreases n
  {
    if n > from {
      PulledNoLF(source, start, from, n - 1);
      var prev := start + Pulled(source, from, n - 1);
      assert start + Pulled(source, from, n) == prev + source(n - 1);
      assert NoLF(source(n - 1));
    }
  }

  /**
   * What one `next()` call may do, starting from the retained bytes `start`
   * after `from` pulls, and ending with result `r`, retained bytes `rest` and
   * `n` pulls:
   *  - it pulls at most `limit` chunks, and none once a terminator is at hand;
   *  - it returns the bytes before a terminator, keeping those after it;
   *  - or, after exactly `limit` pulls without a terminator, it throws
   *    IllegalStateException and keeps every byte.
   */
  predicate NextOutcome(source: nat -> string, limit: nat, start: string, from: nat,
                        r: Result<string>, rest: string, n: nat)
  {
    && from <= n <= from + limit
    && (n > from ==> !HasTerminator(start + Pulled(source, from, n - 1)))
    && (r.Ok? ==>
          !HasTerminator(r.value) && r.value + Terminator + rest == start + Pulled(source, from, n))
    && (r.Err? ==>
          && r.error == IllegalState(NoNewLineMessage(limit))
          && n == from + limit
          && rest == start + Pulled(source, from, n)
          && !HasTerminator(rest))
  }

  /**
   * `next()` is determined: when `m` is the fewest pulls, within the limit,
   * after which the bytes at hand hold a terminator, it pulls exactly `m`
   * chunks and returns the text before the first terminator of those bytes.
   */
  lemma NextDetermined(source: nat -> string, limit: nat, start: string, from: nat,
                       r: Result<string>, rest: string, n: nat, m: nat)
    requires NextOutcome(source, limit, start, from, r, rest, n)
    requires from <= m <= from + limit && HasTerminator(start + Pulled(source, from, m))
    requires m > from ==> !HasTerminator(start + Pulled(source, from, m - 1))
    ensures n == m && r.Ok?
    ensures FirstTerminator(start + Pulled(source, from, m)) == |r.value|
    ensures var text := start + Pulled(source, from, m);
            var k := FirstTerminator(text);
            r.value == text[..k] && rest == text[k + 2..]
  {
    if r.Err? {
      TerminatorStays(source, start, from, m, n);
      assert false;
    }
    var text := start + Pulled(source, from, n);
    LineIsFirst(text, r.value, rest);
    LeastPullUnique(source, start, from, m, n);
  }

  /**
   * The same, read off a known split: when the fewest pulls that complete a
   * line are `m` and bring `line`, a terminator and `tail`, `next()` returns
   * `line` and retains `tail`.
   */
  lemma NextReturnsLine(source: nat -> string, limit: nat, start: string, from: nat,
                        r: Result<string>, rest: string, n: nat, m: nat, line: string, tail: string)
    requires NextOutcome(source, limit, start, from, r, rest, n)
    requires from <= m <= from + limit
    requires !HasTerminator(line) && start + Pulled(source, from, m) == line + Terminator + tail
    requires m > from ==> !HasTerminator(start + Pulled(source, from, m - 1))
    ensures r == Ok(line) && rest == tail && n == m
  {
    LineIsFirst(start + Pulled(source, from, m), line, tail);
    NextDetermined(source, limit, start, from, r, rest, n, m);
  }

  /** When no terminator turns up within `limit` pulls, `next()` throws and keeps every byte. */
  lemma NextExhausted(source: nat -> string, limit: nat, start: string, from: nat,
                      r: Result<string>, rest: string, n: nat)
    requires NextOutcome(source, limit, start, from, r, rest, n)
    requires !HasTerminator(start + Pulled(source, from, from + limit))
    ensures r == Err(IllegalState(NoNewLineMessage(limit)))
    ensures n == from + limit && rest == start + Pulled(source, from, from + limit)
  {
    if r.Ok? {
      LineIsFirst(start + Pulled(source, from, n), r.value, rest);
      TerminatorStays(source, start, from, n, from + limit);
    }
  }

  /**
   * `BufferLines`: a decoder over a chunk source. The k-th pull of the source
   * yields `source(k)`, so a source whose answer depends on how often it was
   * asked is a function of the pull count.
   */
  class BufferLines {
    const source: nat -> string
    /** The retry ceiling: chunks one `Next` call may pull. */
    const limit: nat
    /** Pulled bytes not yet handed out. */
    var buffer: string
    /** Chunks pulled so far. */
    var pulls: nat
    /** The lines handed out so far. */
    ghost var lines: seq<string>

    /** Everything pulled is the handed-out lines with their terminators, then the buffer. */
    ghost predicate Valid()
      reads this
    {
      JoinLines(lines) + buffer == Pulled(source, 0, pulls) && AllLineFree(lines)
    }

    constructor (source: nat -> string, limit: nat)
      ensures Valid()
      ensures this.source == source && this.limit == limit
      ensures buffer == "" && pulls == 0 && lines == []
    {
      this.source := source;
      this.limit := limit;
      buffer := "";
      pulls := 0;
      lines := [];
    }

    /**
     * Pulls chunks while the retained bytes hold no terminator, at most
     * `limit` times, and returns the position of the first terminator.
     */
    method Fill() returns (k: int)
      requires Valid()
      modifies this`buffer, this`pulls
      ensures Valid()
      ensures old(pulls) <= pulls <= old(pulls) + limit
      ensures buffer == old(buffer) + Pulled(source, old(pulls), pulls)
      ensures k == FirstTerminator(buffer)
      ensures k < 0 ==> pulls == old(pulls) + limit
      ensures pulls > old(pulls) ==> !HasTerminator(old(buffer) + Pulled(source, old(pulls), pulls - 1))
    {
      var buf, n;
      buf, n, k := PullUntilTerminator(source, buffer, pulls, limit);
      PulledSplit(source, 0, pulls, n);
      buffer, pulls := buf, n;
    }

    /**
     * The next line. The retained bytes are scanned first; while they hold no
     * terminator, one more chunk is pulled and appended, at most `limit` times.
     */
    method Next() returns (r: Result<string>)
      requires Valid()
      modifies this`buffer, this`pulls, this`lines
      ensures Valid()
      ensures NextOutcome(source, limit, old(buffer), old(pulls), r, buffer, pulls)
      ensures r.Ok? ==> lines == old(lines) + [r.value]
      ensures r.Err? ==> lines == old(lines)
    {
      var k := Fill();
      if k < 0 {
        FirstTerminatorSpec(buffer);
        return Err(IllegalState(NoNewLineMessage(limit)));
      }
      var line := TakeLine(k);
      r := Ok(line);
    }

    /** Hands out the bytes before the first terminator, at `k`, and drops the terminator. */
    method TakeLine(k: int) returns (line: string)
      requires Valid() && 0 <= k && k == FirstTerminator(buffer)
      modifies this`buffer, this`lines
      ensures Valid()
      ensures !HasTerminator(line) && line + Terminator + buffer == old(buffer)
      ensures lines == old(lines) + [line]
    {
      line := buffer[..k];
      ExtractLine(lines, buffer, k);
      buffer := buffer[k + 2..];
      lines := lines + [line];
    }
  }

  /**
   * Whatever the chunking, the lines handed out are the leading lines of the
   * pulled text split at its terminators.
   */
  lemma {:induction false} LinesFollowSplit(b: BufferLines)
    requires b.Valid()
    ensures b.lines <= SplitLines(Pulled(b.source, 0, b.pulls)).0
  {
    SplitJoined(b.lines, b.buffer);
  }

  /**
   * A source that yields the same complete lines on every pull has them
   * handed out in order, however long each line is.
   */
  lemma {:induction false} RepeatedChunkLines(b: BufferLines, ls: seq<string>)
    requires b.Valid() && b.pulls >= 1 && AllLineFree(ls)
    requires forall j: nat :: b.source(j) == JoinLines(ls)
    requires |b.lines| <= |ls|
    ensures b.lines == ls[..|b.lines|]
  {
    var later := Pulled(b.source, 1, b.pulls);
    PulledSplit(b.source, 0, 1, b.pulls);
    assert Pulled(b.source, 0, 1) == JoinLines(ls);
    LinesFollowSplit(b);
    SplitJoined(ls, later);
    assert b.lines <= ls + SplitLines(later).0;
  }
}
