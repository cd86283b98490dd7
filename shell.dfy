/**
 * The shell the command channel talks to (`io.huskit.containers.cli.Shell`)
 * and its lazily created variant (`LazyShell`).
 *
 * A shell process is modelled by two pieces of state: the output lines it
 * has still to print, in order, and the log of everything written to its
 * standard input. Reading a line past the end of the output fails the way
 * the line decoder does when its read limit is reached.
 */
module Shells {
  import opened Wrappers
  import Text
  import Io

  /** `io.huskit.containers.api.cli.ShellType`. */
  datatype ShellType = Default | Bash | PowerShell | Cmd | Sh

  /** What a freshly started shell process is: its kind, process id, coming output and read limit. */
  datatype ShellSpec = ShellSpec(kind: ShellType, pid: int, output: seq<string>, readLimit: nat)

  /** The failure of `outLine()` when no further line arrives. */
  function NoLineFailure(spec: ShellSpec): Failure
  {
    IllegalState(Io.NoNewLineMessage(spec.readLimit))
  }

  /** `"echo " + message`, the text `echo(message)` writes. */
  function EchoText(message: string): (r: string)
    ensures Text.StartsWith(r, "echo ") && r[5..] == message
  {
    "echo " + message
  }

  class Shell {
    const spec: ShellSpec
    /** Output lines the process has still to print. */
    var pending: seq<string>
    /** Everything written to the process's standard input, one entry per write. */
    var written: seq<string>
    var closed: bool

    constructor (spec: ShellSpec)
      ensures this.spec == spec
      ensures pending == spec.output && written == [] && !closed
    {
      this.spec := spec;
      pending := spec.output;
      written := [];
      closed := false;
    }

    /** `write(String)`. */
    method Write(command: string)
      modifies this`written
      ensures written == old(written) + [command]
    {
      written := written + [command];
    }

    /** `write(Iterable)`: the tokens joined with single spaces, as one write. */
    method WriteTokens(tokens: seq<string>)
      modifies this`written
      ensures written == old(written) + [Text.Join(tokens, " ")]
    {
      Write(Text.Join(tokens, " "));
    }

    /** `echo(message)`. */
    method Echo(message: string)
      modifies this`written
      ensures written == old(written) + [EchoText(message)]
    {
      Write(EchoText(message));
    }

    /** `outLine()`: the next output line, or the read-limit failure when there is none. */
    method OutLine() returns (r: Result<string>)
      modifies this`pending
      ensures old(pending) != [] ==> r == Ok(old(pending)[0]) && pending == old(pending)[1..]
      ensures old(pending) == [] ==> r == Err(NoLineFailure(spec)) && pending == []
    {
      if pending == [] {
        return Err(NoLineFailure(spec));
      }
      r := Ok(pending[0]);
      pending := pending[1..];
    }

    /** `type()`. */
    function Type(): (t: ShellType)
      ensures t == spec.kind
    {
      spec.kind
    }

    method Close()
      modifies this`closed
      ensures closed
    {
      closed := true;
    }

    /**
     * `clearBuffer(marker)`: echoes the marker, then reads lines until one is
     * exactly the marker. Lines after it stay unread. When the output runs out
     * first, the read-limit failure propagates.
     */
    method ClearBuffer(marker: string) returns (o: Outcome)
      modifies this`written, this`pending
      ensures written == old(written) + [EchoText(marker)]
      ensures marker in old(pending) ==>
        o == Pass && pending == old(pending)[Text.IndexOf(old(pending), marker) + 1..]
      ensures marker !in old(pending) ==> o == Fail(NoLineFailure(spec)) && pending == []
    {
      ghost var output := pending;
      Echo(marker);
      var line := OutLine();
      ghost var used := if line.Ok? then 1 else 0;
      while line.Ok? && line.value != marker
        invariant used <= |output| && pending == output[used..]
        invariant line.Ok? ==> 1 <= used && line.value == output[used - 1]
        invariant line.Err? ==> line == Err(NoLineFailure(spec)) && used == |output|
        invariant marker !in output[..used - (if line.Ok? then 1 else 0)]
        invariant written == old(written) + [EchoText(marker)]
        decreases |pending| + (if line.Ok? then 1 else 0)
      {
        assert output[..used] == output[..used - 1] + [line.value];
        line := OutLine();
        if line.Ok? {
          used := used + 1;
        }
      }
      if line.Err? {
        assert output[..used] == output;
        return Fail(line.error);
      }
      assert output[..used] == output[..used - 1] + [marker];
      assert Text.IndexOf(output, marker) == used - 1 by {
        IndexOfFirst(output, marker, used - 1);
      }
      o := Pass;
    }
  }

  /** The first occurrence of `x` is at `k` when `x` is at `k` and not before. */
  lemma IndexOfFirst<T>(s: seq<T>, x: T, k: nat)
    requires k < |s| && s[k] == x && x !in s[..k]
    ensures Text.IndexOf(s, x) == k
  {
  }

  /**
   * `LazyShell`: a shell whose process is started on first use. `write`,
   * `type` and `outLine` start it; `pid` and `close` do not.
   */
  class LazyShell {
    const spec: ShellSpec
    var delegate: Shell?

    constructor (spec: ShellSpec)
      ensures this.spec == spec && delegate == null
    {
      this.spec := spec;
      delegate := null;
    }

    /** The delegate belongs to this wrapper and was started from its spec. */
    ghost predicate Valid()
      reads this
    {
      delegate != null ==> delegate.spec == spec
    }

    /** The output still to come: all of it before the process starts. */
    ghost function Pending(): seq<string>
      reads this, delegate
    {
      if delegate == null then spec.output else delegate.pending
    }

    /** What was written so far: nothing before the process starts. */
    ghost function Written(): seq<string>
      reads this, delegate
    {
      if delegate == null then [] else delegate.written
    }

    ghost function Closed(): bool
      reads this, delegate
    {
      delegate != null && delegate.closed
    }

    /** The memoized supplier: starts the process once, then returns the same one. */
    method Get() returns (s: Shell)
      requires Valid()
      modifies this`delegate
      ensures Valid() && delegate == s
      ensures old(delegate) != null ==> s == old(delegate)
      ensures old(delegate) == null ==> fresh(s)
      ensures s.pending == old(Pending()) && s.written == old(Written()) && s.closed == old(Closed())
    {
      if delegate == null {
        delegate := new Shell(spec);
      }
      s := delegate;
    }

    method Write(command: string)
      requires Valid()
      modifies this, delegate
      ensures Valid() && delegate != null
      ensures old(delegate) != null ==> delegate == old(delegate)
      ensures Written() == old(Written()) + [command]
      ensures Pending() == old(Pending()) && Closed() == old(Closed())
    {
      var s := Get();
      s.Write(command);
    }

    method Type() returns (t: ShellType)
      requires Valid()
      modifies this`delegate
      ensures Valid() && delegate != null && t == spec.kind
      ensures old(delegate) != null ==> delegate == old(delegate)
      ensures Written() == old(Written()) && Pending() == old(Pending()) && Closed() == old(Closed())
    {
      var s := Get();
      t := s.Type();
    }

    method OutLine() returns (r: Result<string>)
      requires Valid()
      modifies this, delegate
      ensures Valid() && delegate != null
      ensures old(delegate) != null ==> delegate == old(delegate)
      ensures old(Pending()) != [] ==> r == Ok(old(Pending())[0]) && Pending() == old(Pending())[1..]
      ensures old(Pending()) == [] ==> r == Err(NoLineFailure(spec)) && Pending() == []
      ensures Written() == old(Written()) && Closed() == old(Closed())
    {
      var s := Get();
      r := s.OutLine();
    }

    /** `pid()`: fails, without starting the process, when there is none yet. */
    function Pid(): (r: Result<int>)
      reads this
      ensures r.Err? <==> delegate == null
      ensures r.Err? ==> r.error == IllegalState("Cannot get PID of uninitialized shell")
      ensures r.Ok? ==> r.value == delegate.spec.pid
    {
      if delegate == null then Err(IllegalState("Cannot get PID of uninitialized shell"))
      else Ok(delegate.spec.pid)
    }

    /** `close()`: a no-op, that starts nothing, when there is no process yet. */
    method Close()
      modifies delegate
      ensures delegate == old(delegate)
      ensures Closed() == (delegate != null)
      ensures Pending() == old(Pending()) && Written() == old(Written())
    {
      if delegate != null {
        delegate.Close();
      }
    }
  }
}
