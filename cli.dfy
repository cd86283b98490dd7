/**
 * The command channel (`io.huskit.containers.cli.HtCli`) and the docker
 * shell session behind it (`HtCli.DockerShell`).
 *
 * Each command is recorded, stale output is cleared up to a marker, the
 * command is written, a completion marker is echoed, and output lines are
 * read until one ends with that marker. Closing the channel stops the
 * session once: it removes the containers the session started, when asked
 * to, and closes the shell.
 */
module Cli {
  import opened Wrappers
  import Text
  import opened Commands
  import opened Shells

  /** `CliRecorder`: the commands actually sent, in order. */
  class Recorder {
    var commands: seq<Command>

    constructor ()
      ensures commands == []
    {
      commands := [];
    }

    method Record(c: Command)
      modifies this
      ensures commands == old(commands) + [c]
    {
      commands := commands + [c];
    }
  }

  /** What one command exchange does to the shell and the cleanup queue. */
  datatype Reply = Reply(
    result: Result<CommandResult>,
    rest: seq<string>,
    terminated: bool,
    newIds: seq<string>)

  /**
   * `read`, on the shell output `output` still to come: the first line is
   * trimmed, the lines are scanned by `ScanLines`, and a run command registers
   * the first result line, failing when there is none. When the output runs
   * out before a marker line, `failure` is raised.
   */
  function Respond(c: Command, output: seq<string>, failure: Failure): (reply: Reply)
  {
    if output == [] then Reply(Err(failure), [], false, [])
    else
      var s := ScanLines(c, AsRead(output));
      if s.end == Exhausted then Reply(Err(failure), [], false, [])
      else if IsRun(c.kind) && s.kept == [] then
        Reply(Err(IndexOutOfBounds(0, 0)), output[s.used..], s.end == Terminated, [])
      else
        Reply(Ok(CommandResult(s.kept)), output[s.used..], s.end == Terminated,
              if IsRun(c.kind) then [s.kept[0]] else [])
  }

  /** The output lines as `read` sees them: only the first one is trimmed. */
  function AsRead(output: seq<string>): (ls: seq<string>)
    requires output != []
    ensures |ls| == |output| && ls[0] == Text.Trim(output[0]) && ls[1..] == output[1..]
  {
    [Text.Trim(output[0])] + output[1..]
  }

  /** The lines a read that stops at line `m` returns: the accepted ones before it, and `m` itself if it terminates. */
  function KeptUntil(c: Command, ls: seq<string>, m: nat): seq<string>
    requires m < |ls|
  {
    Accepted(c, ls[..m]) + (if Text.EndsWith(ls[m], RunMarker) then [] else [ls[m]])
  }

  /**
   * `read` when line `m` is the first to end with the marker or to terminate:
   * the lines after it stay unread, and the shell closes exactly when it
   * terminates.
   */
  lemma RespondStops(c: Command, output: seq<string>, failure: Failure, m: nat)
    requires output != [] && m < |output|
    requires Text.EndsWith(AsRead(output)[m], RunMarker) || Terminates(c, AsRead(output)[m])
    requires forall j :: 0 <= j < m ==>
      !Text.EndsWith(AsRead(output)[j], RunMarker) && !Terminates(c, AsRead(output)[j])
    ensures Respond(c, output, failure).rest == output[m + 1..]
    ensures Respond(c, output, failure).terminated == !Text.EndsWith(AsRead(output)[m], RunMarker)
  {
    ScanUntil(c, AsRead(output), m);
  }

  /**
   * The result of that `read`: the lines `KeptUntil`; a run command registers
   * its first line, and fails, registering nothing, when there is none.
   */
  lemma RespondResult(c: Command, output: seq<string>, failure: Failure, m: nat)
    requires output != [] && m < |output|
    requires Text.EndsWith(AsRead(output)[m], RunMarker) || Terminates(c, AsRead(output)[m])
    requires forall j :: 0 <= j < m ==>
      !Text.EndsWith(AsRead(output)[j], RunMarker) && !Terminates(c, AsRead(output)[j])
    ensures var reply, kept := Respond(c, output, failure), KeptUntil(c, AsRead(output), m);
      && (IsRun(c.kind) && kept == [] ==> reply.result == Err(IndexOutOfBounds(0, 0)) && reply.newIds == [])
      && (!(IsRun(c.kind) && kept == []) ==>
            && reply.result == Ok(CommandResult(kept))
            && reply.newIds == if IsRun(c.kind) then [kept[0]] else [])
  {
    ScanUntil(c, AsRead(output), m);
    assert ScanLines(c, AsRead(output)).kept == KeptUntil(c, AsRead(output), m);
  }

  /** `read` when no line ends with the marker or terminates: the output is used up and `failure` raised. */
  lemma RespondRunsOut(c: Command, output: seq<string>, failure: Failure)
    requires output != [] ==> forall j :: 0 <= j < |output| ==>
      !Text.EndsWith(AsRead(output)[j], RunMarker) && !Terminates(c, AsRead(output)[j])
    ensures Respond(c, output, failure) == Reply(Err(failure), [], false, [])
  {
    if output != [] {
      ScanThrough(c, AsRead(output));
    }
  }

  /** A result never contains the marker line, nor an empty line. */
  lemma RespondKeepsNoMarker(c: Command, output: seq<string>, failure: Failure)
    ensures var reply := Respond(c, output, failure);
      reply.result.Ok? ==> forall x :: x in reply.result.value.lines ==> x != "" && !Text.EndsWith(x, RunMarker)
  {
    if output != [] {
      ScanKeepsNoMarker(c, AsRead(output));
    }
  }

  /**
   * One full exchange on the output `output`: everything up to and including
   * the clear-marker line is discarded, then the reply is read from what
   * follows. Without a clear-marker line the exchange fails while clearing.
   */
  function Exchange(c: Command, output: seq<string>, failure: Failure): Reply
  {
    if ClearMarker !in output then Reply(Err(failure), [], false, [])
    else Respond(c, output[Text.IndexOf(output, ClearMarker) + 1..], failure)
  }

  /** An exchange discards exactly the output up to and including the first clear-marker line. */
  lemma ExchangeClears(c: Command, output: seq<string>, failure: Failure, i: nat)
    requires i < |output| && output[i] == ClearMarker && ClearMarker !in output[..i]
    ensures Exchange(c, output, failure) == Respond(c, output[i + 1..], failure)
    ensures Sent(c, output) == [EchoText(ClearMarker), CommandString(c), EchoText(RunMarker)]
  {
    IndexOfFirst(output, ClearMarker, i);
  }

  /** What one exchange writes to the shell: the clear echo, then, once cleared, the command and the run echo. */
  function Sent(c: Command, output: seq<string>): seq<string>
  {
    if ClearMarker in output then [EchoText(ClearMarker), CommandString(c), EchoText(RunMarker)]
    else [EchoText(ClearMarker)]
  }

  /** The bulk removal `stop` issues: forced, with volumes, over the given ids. */
  function RmCommand(ids: seq<string>): (c: Command)
    ensures |c.tokens| == 4 + |ids|
    ensures c.tokens[..4] == ["docker", "rm", "--force", "--volumes"] && c.tokens[4..] == ids
    ensures !IsRun(c.kind)
  {
    Command(["docker", "rm", "--force", "--volumes"] + ids, Generic, _ => true, _ => false)
  }

  /** A scan of the remaining lines, after `k` lines were consumed and `kept` were kept. */
  function Shift(kept: seq<string>, k: nat, tail: Scan): Scan
  {
    Scan(kept + tail.kept, k + tail.used, tail.end)
  }

  /** Reading past a line that neither ends nor terminates the read moves it into the consumed prefix. */
  lemma ScanStep(c: Command, line: string, rest: seq<string>, kept: seq<string>, k: nat, s: Scan)
    requires !Text.EndsWith(line, RunMarker) && !Terminates(c, line)
    requires s == Shift(kept, k, ScanLines(c, [line] + rest))
    ensures s == Shift(kept + (if Kept(c, line) then [line] else []), k + 1, ScanLines(c, rest))
  {
    var piece, tail := if Kept(c, line) then [line] else [], ScanLines(c, rest);
    assert ([line] + rest)[1..] == rest;
    assert ScanLines(c, [line] + rest) == Scan(piece + tail.kept, tail.used + 1, tail.end);
    assert kept + (piece + tail.kept) == kept + piece + tail.kept;
  }

  /** The output left after a line: used up, the read runs out; otherwise its next line comes first. */
  lemma ScanNext(c: Command, kept: seq<string>, k: nat, rest: seq<string>, s: Scan)
    requires s == Shift(kept, k, ScanLines(c, rest))
    ensures rest == [] ==> s == Scan(kept, k, Exhausted)
    ensures rest != [] ==> rest == [rest[0]] + rest[1..]
  {
    if rest == [] {
      assert kept + [] == kept;
    } else {
      assert rest == [rest[0]] + rest[1..];
    }
  }

  /** The line that ends the read: the marker line is consumed, a terminating line is consumed and kept. */
  lemma ScanStop(c: Command, line: string, rest: seq<string>, kept: seq<string>, k: nat, s: Scan)
    requires Text.EndsWith(line, RunMarker) || Terminates(c, line)
    requires s == Shift(kept, k, ScanLines(c, [line] + rest))
    ensures s == if Text.EndsWith(line, RunMarker) then Scan(kept, k + 1, AtMarker)
      else Scan(kept + [line], k + 1, Terminated)
  {
    assert ([line] + rest)[0] == line;
  }

  class DockerShell {
    const shell: Shell
    const recorder: Recorder
    const cleanupOnClose: bool
    /** `containerIdsForCleanup`: ids of the containers run commands started. */
    var ids: seq<string>
    var stopped: bool

    constructor (spec: ShellSpec, recorder: Recorder, cleanupOnClose: bool)
      ensures fresh(shell) && shell.spec == spec
      ensures shell.pending == spec.output && shell.written == [] && !shell.closed
      ensures this.recorder == recorder && this.cleanupOnClose == cleanupOnClose
      ensures ids == [] && !stopped
    {
      shell := new Shell(spec);
      this.recorder := recorder;
      this.cleanupOnClose := cleanupOnClose;
      ids := [];
      stopped := false;
    }

    /**
     * The loop of `read`, from the (trimmed) first line `first` on: the scan
     * of `ScanLines`, consuming shell output. `complete` is false when the
     * output ran out before the read ended.
     */
    method ScanOutput(c: Command, first: string) returns (kept: seq<string>, terminated: bool, complete: bool)
      modifies shell`pending, shell`closed
      ensures var s := ScanLines(c, [first] + old(shell.pending));
        && complete == (s.end != Exhausted)
        && (complete ==>
              && kept == s.kept && terminated == (s.end == Terminated)
              && shell.pending == old(shell.pending)[s.used - 1..])
        && (!complete ==> shell.pending == [])
        && shell.closed == (old(shell.closed) || (complete && terminated))
    {
      ghost var output := shell.pending;
      ghost var s := ScanLines(c, [first] + output);
      ghost var k := 0;
      var commandString := CommandString(c);
      var line := first;
      kept, terminated, complete := [], false, true;
      while !Text.EndsWith(line, RunMarker)
        invariant k <= |output| && shell.pending == output[k..]
        invariant s == Shift(kept, k, ScanLines(c, [line] + shell.pending))
        invariant complete && !terminated && shell.closed == old(shell.closed)
        decreases |shell.pending|
      {
        ghost var keptBefore, rest := kept, shell.pending;
        if line != "" {
          if c.terminates(line) {
            ScanStop(c, line, shell.pending, kept, k, s);
            shell.Close();
            kept := kept + [line];
            terminated := true;
            return;
          }
          if !Text.EndsWith(line, commandString) && c.accepts(line) {
            kept := kept + [line];
          }
        }
        assert kept == keptBefore + if Kept(c, line) then [line] else [];
        ScanStep(c, line, rest, keptBefore, k, s);
        ScanNext(c, kept, k + 1, rest, s);
        var next := shell.OutLine();
        if next.Err? {
          complete := false;
          return;
        }
        line := next.value;
        k := k + 1;
      }
      ScanStop(c, line, shell.pending, kept, k, s);
    }

    /** `read`: reads the reply to `c` off the shell. */
    method Read(c: Command) returns (r: Result<CommandResult>)
      modifies shell`pending, shell`closed, this`ids
      ensures var reply := Respond(c, old(shell.pending), NoLineFailure(shell.spec));
        && r == reply.result
        && shell.pending == reply.rest
        && shell.closed == (old(shell.closed) || reply.terminated)
        && ids == old(ids) + reply.newIds
    {
      ghost var output := shell.pending;
      var first := shell.OutLine();
      if first.Err? {
        return Err(first.error);
      }
      var kept, terminated, complete := ScanOutput(c, Text.Trim(first.value));
      if !complete {
        return Err(NoLineFailure(shell.spec));
      }
      ghost var s := ScanLines(c, AsRead(output));
      assert output[s.used..] == output[1..][s.used - 1..];
      if IsRun(c.kind) {
        if kept == [] {
          return Err(IndexOutOfBounds(0, 0));
        }
        ids := ids + [kept[0]];
      }
      r := Ok(CommandResult(kept));
    }

    /** `doSendCommand`: record the command, clear stale output, write the command. */
    method DoSendCommand(c: Command) returns (o: Outcome)
      modifies recorder, shell`written, shell`pending
      ensures recorder.commands == old(recorder.commands) + [c]
      ensures ClearMarker in old(shell.pending) ==>
        && o == Pass
        && shell.pending == old(shell.pending)[Text.IndexOf(old(shell.pending), ClearMarker) + 1..]
        && shell.written == old(shell.written) + [EchoText(ClearMarker), CommandString(c)]
      ensures ClearMarker !in old(shell.pending) ==>
        && o == Fail(NoLineFailure(shell.spec))
        && shell.pending == []
        && shell.written == old(shell.written) + [EchoText(ClearMarker)]
    {
      recorder.Record(c);
      o := shell.ClearBuffer(ClearMarker);
      if o.Fail? {
        return;
      }
      shell.WriteTokens(c.tokens);
    }

    /**
     * `sendCommand`, outside the log-follow path: the exchange of `Exchange`,
     * writing what `Sent` says, after recording the command.
     */
    method SendCommand(c: Command) returns (r: Result<CommandResult>)
      requires c.kind != ContainersLogsFollow
      modifies recorder, shell, this`ids
      ensures recorder.commands == old(recorder.commands) + [c]
      ensures var reply := Exchange(c, old(shell.pending), NoLineFailure(shell.spec));
        && r == reply.result
        && shell.pending == reply.rest
        && shell.written == old(shell.written) + Sent(c, old(shell.pending))
        && shell.closed == (old(shell.closed) || reply.terminated)
        && ids == old(ids) + reply.newIds
    {
      ghost var output, written := shell.pending, shell.written;
      var o := DoSendCommand(c);
      if o.Fail? {
        assert Exchange(c, output, NoLineFailure(shell.spec)) == Reply(Err(o.error), [], false, []);
        return Err(o.error);
      }
      assert ClearMarker in output;
      assert Exchange(c, output, NoLineFailure(shell.spec)) == Respond(c, shell.pending, NoLineFailure(shell.spec));
      shell.Echo(RunMarker);
      assert shell.written == written + Sent(c, output);
      r := Read(c);
    }

    /**
     * `stop`: only the first call acts. It removes the recorded containers,
     * each once and in the order first registered, when cleanup is on and
     * there are any, then closes the shell. A failing removal propagates and
     * leaves the shell open.
     */
    method Stop() returns (o: Outcome)
      modifies this`stopped, recorder, shell, this`ids
      ensures stopped && ids == old(ids)
      ensures old(stopped) ==>
        && o == Pass
        && recorder.commands == old(recorder.commands)
        && shell.pending == old(shell.pending) && shell.written == old(shell.written)
        && shell.closed == old(shell.closed)
      ensures !old(stopped) && !(cleanupOnClose && old(ids) != []) ==>
        && o == Pass
        && recorder.commands == old(recorder.commands)
        && shell.pending == old(shell.pending) && shell.written == old(shell.written)
        && shell.closed
      ensures !old(stopped) && cleanupOnClose && old(ids) != [] ==>
        var rm := RmCommand(Distinct(old(ids)));
        var reply := Exchange(rm, old(shell.pending), NoLineFailure(shell.spec));
        && recorder.commands == old(recorder.commands) + [rm]
        && shell.pending == reply.rest
        && shell.written == old(shell.written) + Sent(rm, old(shell.pending))
        && (reply.result.Ok? ==> o == Pass && shell.closed)
        && (reply.result.Err? ==>
              o == Fail(reply.result.error) && shell.closed == (old(shell.closed) || reply.terminated))
    {
      if stopped {
        return Pass;
      }
      stopped := true;
      if cleanupOnClose && ids != [] {
        var r := SendCommand(RmCommand(Distinct(ids)));
        if r.Err? {
          return Fail(r.error);
        }
      }
      shell.Close();
      o := Pass;
    }
  }

  /** The message `sendCommand` fails with once the channel is closed (two spaces as in the source). */
  const ClosedMessage: string := "Cli is closed and  cannot be used anymore"

  class HtCli {
    const shellSpec: ShellSpec
    const recorder: Recorder
    const cleanupOnClose: bool
    /** The memoized docker shell session: none until the first command. */
    var process: DockerShell?
    var closed: bool

    constructor (shellSpec: ShellSpec, recorder: Recorder, cleanupOnClose: bool)
      ensures this.shellSpec == shellSpec && this.recorder == recorder
      ensures this.cleanupOnClose == cleanupOnClose
      ensures process == null && !closed
    {
      this.shellSpec := shellSpec;
      this.recorder := recorder;
      this.cleanupOnClose := cleanupOnClose;
      process := null;
      closed := false;
    }

    /** The session, once created, was created from this channel's configuration. */
    ghost predicate Valid()
      reads this, process
    {
      process != null ==>
        process.recorder == recorder && process.cleanupOnClose == cleanupOnClose && process.shell.spec == shellSpec
    }

    /** The shell output still to come: all of it before the session exists. */
    ghost function Pending(): seq<string>
      reads this, process, if process == null then {} else {process.shell}
    {
      if process == null then shellSpec.output else process.shell.pending
    }

    ghost function Written(): seq<string>
      reads this, process, if process == null then {} else {process.shell}
    {
      if process == null then [] else process.shell.written
    }

    ghost function ShellClosed(): bool
      reads this, process, if process == null then {} else {process.shell}
    {
      process != null && process.shell.closed
    }

    ghost function Ids(): seq<string>
      reads this, process
    {
      if process == null then [] else process.ids
    }

    ghost function Stopped(): bool
      reads this, process
    {
      process != null && process.stopped
    }

    /** `process.get()`: creates the session on first use, then returns the same one. */
    method Process() returns (p: DockerShell)
      requires Valid()
      modifies this`process
      ensures Valid() && process == p
      ensures old(process) != null ==> p == old(process)
      ensures old(process) == null ==> fresh(p) && fresh(p.shell)
      ensures p.shell.pending == old(Pending()) && p.shell.written == old(Written())
      ensures p.shell.closed == old(ShellClosed()) && p.ids == old(Ids()) && p.stopped == old(Stopped())
    {
      if process == null {
        process := new DockerShell(shellSpec, recorder, cleanupOnClose);
      }
      p := process;
    }

    /**
     * `sendCommand`: rejected, touching nothing, once the channel is closed;
     * otherwise one exchange on the (possibly new) session.
     */
    method SendCommand(c: Command) returns (r: Result<CommandResult>)
      requires Valid() && c.kind != ContainersLogsFollow
      modifies this`process, recorder, process, if process == null then {} else {process.shell}
      ensures Valid() && closed == old(closed)
      ensures old(closed) ==>
        && r == Err(IllegalState(ClosedMessage))
        && process == old(process)
        && recorder.commands == old(recorder.commands)
        && Pending() == old(Pending()) && Written() == old(Written()) && Ids() == old(Ids())
        && ShellClosed() == old(ShellClosed()) && Stopped() == old(Stopped())
      ensures !old(closed) ==>
        && process != null
        && (old(process) != null ==> process == old(process))
        && recorder.commands == old(recorder.commands) + [c]
        && var reply := Exchange(c, old(Pending()), NoLineFailure(shellSpec));
        && r == reply.result
        && Pending() == reply.rest
        && Written() == old(Written()) + Sent(c, old(Pending()))
        && ShellClosed() == (old(ShellClosed()) || reply.terminated)
        && Ids() == old(Ids()) + reply.newIds
        && Stopped() == old(Stopped())
    {
      if closed {
        return Err(IllegalState(ClosedMessage));
      }
      var p := Process();
      r := p.SendCommand(c);
    }

    /**
     * `close`: stops the session if there is one, then marks the channel
     * closed. A failing stop propagates and leaves the channel open.
     */
    method Close() returns (o: Outcome)
      requires Valid()
      modifies this`closed, recorder, process, if process == null then {} else {process.shell}
      ensures Valid() && process == old(process) && Ids() == old(Ids())
      ensures closed == (old(closed) || o == Pass)
      ensures process == null ==>
        && o == Pass && recorder.commands == old(recorder.commands)
        && Pending() == old(Pending()) && Written() == old(Written())
      ensures process != null ==> Stopped()
      ensures old(Stopped()) ==>
        && o == Pass && recorder.commands == old(recorder.commands)
        && Pending() == old(Pending()) && Written() == old(Written())
        && ShellClosed() == old(ShellClosed())
      ensures process != null && !old(Stopped()) && !(cleanupOnClose && old(Ids()) != []) ==>
        && o == Pass && recorder.commands == old(recorder.commands)
        && Pending() == old(Pending()) && Written() == old(Written())
        && ShellClosed()
      ensures process != null && !old(Stopped()) && cleanupOnClose && old(Ids()) != [] ==>
        var rm := RmCommand(Distinct(old(Ids())));
        var reply := Exchange(rm, old(Pending()), NoLineFailure(shellSpec));
        && recorder.commands == old(recorder.commands) + [rm]
        && Pending() == reply.rest
        && Written() == old(Written()) + Sent(rm, old(Pending()))
        && (reply.result.Ok? ==> o == Pass && ShellClosed())
        && (reply.result.Err? ==>
              o == Fail(reply.result.error) && ShellClosed() == (old(ShellClosed()) || reply.terminated))
    {
      o := Pass;
      if process != null {
        o := process.Stop();
        if o.Fail? {
          return;
        }
      }
      closed := true;
    }
  }
}
