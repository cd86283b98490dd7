/**
 * Commands sent over the command channel, the results they produce and the
 * reading rule that turns shell output into a result (`HtCli.DockerShell.read`).
 */
module Commands {
  import opened Wrappers
  import Text

  /** `io.huskit.containers.model.CommandType`, as far as the channel distinguishes it. */
  datatype CommandType = ContainersRun | ContainersRunFollow | ContainersLogsFollow | Generic

  /** `HtCommand`: argv tokens, a type tag, a line predicate and a terminate predicate. */
  datatype Command = Command(
    tokens: seq<string>,
    kind: CommandType,
    accepts: string -> bool,
    terminates: string -> bool)

  /** Commands whose first result line is a new container id to clean up. */
  predicate IsRun(kind: CommandType)
  {
    kind == ContainersRun || kind == ContainersRunFollow
  }

  /** The marker echoed after a command; the line carrying it ends the read. */
  const RunMarker: string := "__HUSKIT_RUN_MARKER__"
  /** The marker `clearBuffer` waits for before a command is written. */
  const ClearMarker: string := "__HUSKIT_CLEAR_MARKER__"

  /** `String.join(" ", command.value())`: the text written for a command, which the shell may echo back. */
  function CommandString(c: Command): string
  {
    Text.Join(c.tokens, " ")
  }

  /** `CommandResult`: the accepted lines of one command. */
  datatype CommandResult = CommandResult(lines: seq<string>)
  {
    /** `singleLine()`: the line when there is exactly one, otherwise IllegalStateException. */
    function SingleLine(): (r: Result<string>)
      ensures r.Ok? <==> |lines| == 1
      ensures r.Ok? ==> r.value == lines[0]
      ensures r.Err? ==>
        r.error == IllegalState("Expected a single line, but got " + Text.NatToString(|lines|) + " lines")
    {
      if |lines| != 1 then
        Err(IllegalState("Expected a single line, but got " + Text.NatToString(|lines|) + " lines"))
      else Ok(lines[0])
    }
  }

  /** A non-empty line that ends the read early (it is kept). */
  predicate Terminates(c: Command, line: string)
  {
    line != "" && c.terminates(line)
  }

  /** A line that goes into the result: non-empty, not the command's echo, and accepted. */
  predicate Kept(c: Command, line: string)
  {
    line != "" && !Text.EndsWith(line, CommandString(c)) && c.accepts(line)
  }

  /** The lines of `ls` the result keeps, in order. */
  function Accepted(c: Command, ls: seq<string>): (r: seq<string>)
    ensures |r| <= |ls|
    ensures forall x :: x in r ==> x in ls && Kept(c, x)
    ensures forall x :: x in ls && Kept(c, x) ==> x in r
  {
    if ls == [] then []
    else (if Kept(c, ls[0]) then [ls[0]] else []) + Accepted(c, ls[1..])
  }

  /** Filtering keeps order and repeats: it distributes over concatenation. */
  lemma {:induction false} AcceptedAppend(c: Command, a: seq<string>, b: seq<string>)
    ensures Accepted(c, a + b) == Accepted(c, a) + Accepted(c, b)
  {
    if a == [] {
      assert a + b == b;
    } else {
      var head := if Kept(c, a[0]) then [a[0]] else [];
      assert (a + b)[0] == a[0] && (a + b)[1..] == a[1..] + b;
      assert Accepted(c, a + b) == head + Accepted(c, a[1..] + b);
      AcceptedAppend(c, a[1..], b);
      ConcatAssoc(head, Accepted(c, a[1..]), Accepted(c, b));
    }
  }

  /** A single line is kept exactly when it passes. */
  lemma AcceptedSingle(c: Command, x: string)
    ensures Accepted(c, [x]) == if Kept(c, x) then [x] else []
  {
    assert [x][1..] == [];
  }

  lemma ConcatAssoc<T>(a: seq<T>, b: seq<T>, d: seq<T>)
    ensures a + (b + d) == a + b + d
  {
  }

  /** How a read ended: at the marker line, at a terminating line, or when the output ran out. */
  datatype End = AtMarker | Terminated | Exhausted

  /** What a read did: the lines kept, the lines consumed and how it ended. */
  datatype Scan = Scan(kept: seq<string>, used: nat, end: End)

  /**
   * The reading rule over the lines as the loop sees them: consume lines until
   * one ends with the marker; a terminating line is kept and ends the read;
   * any other line is kept when `Kept` holds.
   */
  function ScanLines(c: Command, ls: seq<string>): (s: Scan)
    ensures s.used <= |ls| && (ls != [] ==> 1 <= s.used)
  {
    if ls == [] then Scan([], 0, Exhausted)
    else if Text.EndsWith(ls[0], RunMarker) then Scan([], 1, AtMarker)
    else if Terminates(c, ls[0]) then Scan([ls[0]], 1, Terminated)
    else
      var tail := ScanLines(c, ls[1..]);
      Scan((if Kept(c, ls[0]) then [ls[0]] else []) + tail.kept, tail.used + 1, tail.end)
  }

  /** A read that stopped consumed the line that stopped it; one that ran out consumed everything. */
  lemma {:induction false} ScanUsed(c: Command, ls: seq<string>)
    ensures ScanLines(c, ls).end != Exhausted ==> ScanLines(c, ls).used >= 1
    ensures ScanLines(c, ls).end == Exhausted ==> ScanLines(c, ls).used == |ls|
  {
    if ls != [] && !Text.EndsWith(ls[0], RunMarker) && !Terminates(c, ls[0]) {
      ScanUsed(c, ls[1..]);
    }
  }

  /**
   * The reading rule, characterised for a read that stopped: it stopped at
   * the first line that ends with the marker or terminates; before it, it
   * kept exactly the accepted lines; a terminating line is kept as the last
   * one; the marker line never is.
   */
  lemma ScanStopped(c: Command, ls: seq<string>)
    requires ScanLines(c, ls).end != Exhausted
    ensures ScanLines(c, ls).used >= 1
    ensures var s := ScanLines(c, ls);
      forall j :: 0 <= j < s.used - 1 ==> !Text.EndsWith(ls[j], RunMarker) && !Terminates(c, ls[j])
    ensures var s := ScanLines(c, ls);
      s.end == AtMarker ==>
        Text.EndsWith(ls[s.used - 1], RunMarker) && s.kept == Accepted(c, ls[..s.used - 1])
    ensures var s := ScanLines(c, ls);
      s.end == Terminated ==>
        && !Text.EndsWith(ls[s.used - 1], RunMarker) && Terminates(c, ls[s.used - 1])
        && s.kept == Accepted(c, ls[..s.used - 1]) + [ls[s.used - 1]]
  {
    ScanStopsAt(c, ls);
    ScanUntil(c, ls, ScanLines(c, ls).used - 1);
  }

  /** A read that stopped did so at its last consumed line, the first that ends with the marker or terminates. */
  lemma {:induction false} ScanStopsAt(c: Command, ls: seq<string>)
    requires ScanLines(c, ls).end != Exhausted
    ensures var s := ScanLines(c, ls);
      && 1 <= s.used
      && (Text.EndsWith(ls[s.used - 1], RunMarker) || Terminates(c, ls[s.used - 1]))
      && forall j :: 0 <= j < s.used - 1 ==> !Text.EndsWith(ls[j], RunMarker) && !Terminates(c, ls[j])
  {
    if !Text.EndsWith(ls[0], RunMarker) && !Terminates(c, ls[0]) {
      var tail := ScanLines(c, ls[1..]);
      ScanStopsAt(c, ls[1..]);
      assert ls[tail.used] == ls[1..][tail.used - 1];
      forall j | 1 <= j < tail.used
        ensures !Text.EndsWith(ls[j], RunMarker) && !Terminates(c, ls[j])
      {
        assert ls[j] == ls[1..][j - 1];
      }
    }
  }

  /** A read that ran out met neither a marker line nor a terminating line, and kept the accepted lines. */
  lemma {:induction false} ScanRanOut(c: Command, ls: seq<string>)
    requires ScanLines(c, ls).end == Exhausted
    ensures forall j :: 0 <= j < |ls| ==> !Text.EndsWith(ls[j], RunMarker) && !Terminates(c, ls[j])
    ensures ScanLines(c, ls).kept == Accepted(c, ls)
  {
    if ls != [] {
      ScanRanOut(c, ls[1..]);
      forall j | 1 <= j < |ls|
        ensures !Text.EndsWith(ls[j], RunMarker) && !Terminates(c, ls[j])
      {
        assert ls[j] == ls[1..][j - 1];
      }
    }
  }

  /**
   * The converse of `ScanStopped`: when the first line that ends with the
   * marker or terminates is at `m`, the read stops there, keeping the
   * accepted lines before it and, if it terminates, that line too.
   */
  lemma {:induction false} ScanUntil(c: Command, ls: seq<string>, m: nat)
    requires m < |ls| && (Text.EndsWith(ls[m], RunMarker) || Terminates(c, ls[m]))
    requires forall j :: 0 <= j < m ==> !Text.EndsWith(ls[j], RunMarker) && !Terminates(c, ls[j])
    ensures ScanLines(c, ls) ==
      if Text.EndsWith(ls[m], RunMarker) then Scan(Accepted(c, ls[..m]), m + 1, AtMarker)
      else Scan(Accepted(c, ls[..m]) + [ls[m]], m + 1, Terminated)
  {
    if m > 0 {
      assert !Text.EndsWith(ls[0], RunMarker) && !Terminates(c, ls[0]);
      NoStopTail(c, ls, m);
      ScanUntil(c, ls[1..], m - 1);
      AcceptedFirst(c, ls, m);
    }
  }

  /** Lines before `m` that do not stop a read are, past the first, lines before `m - 1` of the rest. */
  lemma NoStopTail(c: Command, ls: seq<string>, m: nat)
    requires 0 < m <= |ls|
    requires forall j :: 0 <= j < m ==> !Text.EndsWith(ls[j], RunMarker) && !Terminates(c, ls[j])
    ensures forall j :: 0 <= j < m - 1 ==> !Text.EndsWith(ls[1..][j], RunMarker) && !Terminates(c, ls[1..][j])
  {
    forall j | 0 <= j < m - 1
      ensures !Text.EndsWith(ls[1..][j], RunMarker) && !Terminates(c, ls[1..][j])
    {
      assert ls[1..][j] == ls[j + 1];
    }
  }

  /** The lines accepted from a prefix are those of its first line followed by those of the rest. */
  lemma AcceptedFirst(c: Command, ls: seq<string>, m: nat)
    requires 0 < m <= |ls|
    ensures Accepted(c, ls[..m]) == (if Kept(c, ls[0]) then [ls[0]] else []) + Accepted(c, ls[1..][..m - 1])
  {
    assert ls[..m][1..] == ls[1..][..m - 1];
    assert ls[..m][0] == ls[0];
  }

  /** The converse of `ScanRanOut`: output without a stopping line is consumed whole. */
  lemma {:induction false} ScanThrough(c: Command, ls: seq<string>)
    requires forall j :: 0 <= j < |ls| ==> !Text.EndsWith(ls[j], RunMarker) && !Terminates(c, ls[j])
    ensures ScanLines(c, ls) == Scan(Accepted(c, ls), |ls|, Exhausted)
  {
    if ls != [] {
      assert !Text.EndsWith(ls[0], RunMarker) && !Terminates(c, ls[0]);
      forall j | 0 <= j < |ls| - 1
        ensures !Text.EndsWith(ls[1..][j], RunMarker) && !Terminates(c, ls[1..][j])
      {
        assert ls[1..][j] == ls[j + 1];
      }
      ScanThrough(c, ls[1..]);
    }
  }

  /** No line of a result ends with the marker, and none is empty. */
  lemma ScanKeepsNoMarker(c: Command, ls: seq<string>)
    ensures forall x :: x in ScanLines(c, ls).kept ==> x != "" && !Text.EndsWith(x, RunMarker)
  {
    var s := ScanLines(c, ls);
    if s.end != Exhausted {
      ScanStopped(c, ls);
      var body := ls[..s.used - 1];
      forall x | x in Accepted(c, body) ensures !Text.EndsWith(x, RunMarker) {
        var j :| 0 <= j < |body| && body[j] == x;
        assert ls[j] == x;
      }
    } else {
      ScanRanOut(c, ls);
    }
  }

  /** Reading does not depend on what follows the line that ends it. */
  lemma {:induction false} ScanIgnoresRest(c: Command, ls: seq<string>, more: seq<string>)
    requires ScanLines(c, ls).end != Exhausted
    ensures ScanLines(c, ls + more) == ScanLines(c, ls)
  {
    if ls != [] && !Text.EndsWith(ls[0], RunMarker) && !Terminates(c, ls[0]) {
      assert (ls + more)[1..] == ls[1..] + more;
      ScanIgnoresRest(c, ls[1..], more);
    } else {
      assert (ls + more)[0] == ls[0];
    }
  }

  /**
   * The container ids of a cleanup queue without repeats, first occurrences
   * first: the order a `LinkedHashSet` built from the queue iterates in.
   */
  function Distinct(s: seq<string>): (r: seq<string>)
    ensures forall x :: x in r <==> x in s
    ensures NoRepeats(r)
    ensures forall i, j :: 0 <= i < j < |r| ==> Text.IndexOf(s, r[i]) < Text.IndexOf(s, r[j])
  {
    if s == [] then []
    else
      var init, last := s[..|s| - 1], s[|s| - 1];
      var d := Distinct(init);
      assert forall x :: x in s <==> x in init || x == last by {
        assert s == init + [last];
      }
      forall x | x in init
        ensures Text.IndexOf(s, x) == Text.IndexOf(init, x)
      {
        IndexOfPrefix(init, s, x);
      }
      if last in d then d
      else
        assert Text.IndexOf(s, last) == |s| - 1;
        d + [last]
  }

  /** The first occurrence of `x` in a prefix is its first occurrence in the whole sequence. */
  lemma IndexOfPrefix(p: seq<string>, s: seq<string>, x: string)
    requires x in p && p <= s
    ensures Text.IndexOf(s, x) == Text.IndexOf(p, x)
  {
    var k := Text.IndexOf(p, x);
    assert s[k] == x;
  }

  predicate NoRepeats(s: seq<string>)
  {
    forall i, j :: 0 <= i < j < |s| ==> s[i] != s[j]
  }

  /** A queue without repeats is iterated as it stands. */
  lemma {:induction false} DistinctOfDistinct(s: seq<string>)
    requires NoRepeats(s)
    ensures Distinct(s) == s
  {
    if s != [] {
      var init := s[..|s| - 1];
      assert NoRepeats(init);
      DistinctOfDistinct(init);
      assert s[|s| - 1] !in init;
      assert Distinct(s) == Distinct(init) + [s[|s| - 1]];
      assert s == init + [s[|s| - 1]];
    }
  }
}
