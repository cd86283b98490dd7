# huskit containers: the docker command channel and its helpers, in Dafny

This project models the part of huskit that drives the `docker` command line
through one long-lived shell:

- **The command channel.** `HtCli` holds one lazily created `DockerShell`
  session. Each command runs in a fixed order:
  1. the command is recorded;
  2. stale output is cleared up to a clear marker;
  3. the command line is written;
  4. a run marker is echoed;
  5. output lines are read until one ends with the run marker.

  The read skips empty lines and drops the echo of the command and any line
  the command's line predicate rejects. A line that satisfies the command's
  terminate predicate is kept, closes the shell and ends the read. A `run`
  command registers its first result line as a container id. `close` stops
  the session once: when cleanup is on and ids were registered, it sends one
  forced removal of those ids, each once, in the order first registered, and
  then closes the shell. A closed channel rejects further commands.
- **The shell.** A `Shell` is a queue of output lines the process has still to
  print plus a log of what was written to it. `LazyShell` starts its process
  on first use.
- **The CR LF decoder `BufferLines`.** It pulls byte chunks from a source,
  retains what it has not handed out, and returns one line per `next()`. A
  call fails after a ceiling of pulls without a terminator.
- **The docker command lines** of `ps`, `run`, `logs`, `inspect` and `rmi`.
  Each is a value built by builder calls, and the command line is a function
  of that value.
- **Small pieces:**
  - the `docker inspect` map lookups (`HtContainerFromMap`);
  - container removal over HTTP (`HttpRm`);
  - the optional-value cell `DfMutable`;
  - the cached JSON of a `MongoContainerId`;
  - operating-system detection (`Os`);
  - the environment map of a container request (`DefEnvSpec`).

Shells, processes, sockets and sources of bytes appear as state or as
parameters:

- the operating-system name property is a parameter;
- a chunk source is a function of the pull count;
- the socket is a log of the requests sent;
- a shell is the output it will print and the log of what it was given.

## Model

| member | source | states |
|---|---|---|
| Cli.HtCli.constructor | containers/containers-huskit/src/main/java/io/huskit/containers/cli/HtCli.java:22-26 | A new channel has no session yet and is open. |
| Cli.HtCli.Process | containers/containers-huskit/src/main/java/io/huskit/containers/cli/HtCli.java:48-50 | The session is created on first use and at most once, and later calls return the same one; a new session starts with all of the shell output still to come and nothing written. |
| Cli.HtCli.SendCommand | containers/containers-huskit/src/main/java/io/huskit/containers/cli/HtCli.java:28-39 | A closed channel fails with "Cli is closed and  cannot be used anymore" and touches neither the session, the recorder nor the shell. An open one records the command and performs exactly the exchange `Exchange` describes on the (possibly new) session: same result, remaining output, written text, shell state and cleanup ids. |
| Cli.HtCli.Close | containers/containers-huskit/src/main/java/io/huskit/containers/cli/HtCli.java:52-57 | Without a session it records, writes and reads nothing. With one, the session ends up stopped and `o` is the outcome of `stop`, in its three cases. A session already stopped is left as it is. With cleanup on and ids registered, `docker rm --force --volumes` over the ids without repeats is recorded and exchanged on the shell as `Exchange` describes, and the shell is closed when that succeeds. With no ids to remove, only the shell is closed. The channel is closed afterwards exactly when stopping did not fail. |
| Cli.DockerShell.constructor | containers/containers-huskit/src/main/java/io/huskit/containers/cli/HtCli.java:71-84 | A session starts a fresh shell from the channel's configuration, with an empty cleanup queue, not stopped. |
| Cli.DockerShell.SendCommand | containers/containers-huskit/src/main/java/io/huskit/containers/cli/HtCli.java:86-100 | Outside log following: records the command, writes the clear echo, the command and the run echo (`Sent`), and returns the result `Exchange` gives. The remaining output, shell closing and new cleanup ids also match `Exchange`. |
| Cli.DockerShell.DoSendCommand | containers/containers-huskit/src/main/java/io/huskit/containers/cli/HtCli.java:102-106 | Records the command, then clears up to the first clear-marker line and writes the space-joined command. Without a clear-marker line it fails with the read-limit failure after writing only the clear echo. |
| Cli.DockerShell.Read | containers/containers-huskit/src/main/java/io/huskit/containers/cli/HtCli.java:108-133 | The result, the output left unread, whether the shell was closed and the ids added are exactly those of `Respond` on the output still to come. |
| Cli.DockerShell.ScanOutput | containers/containers-huskit/src/main/java/io/huskit/containers/cli/HtCli.java:115-127 | The read loop computes the reading rule `ScanLines`. It keeps the same lines and consumes the same number of output lines. It closes the shell exactly when it stops at a terminating line, and when the output runs out it reports that and consumes everything. |
| Cli.DockerShell.Stop | containers/containers-huskit/src/main/java/io/huskit/containers/cli/HtCli.java:135-142 | Only the first call acts; later calls change nothing. With cleanup on and ids registered, it performs one exchange of `docker rm --force --volumes` over the ids without repeats, then closes the shell. A failing removal propagates and leaves the shell as the exchange left it. Without ids it only closes the shell. |
| Cli.RespondStops | containers/containers-huskit/src/main/java/io/huskit/containers/cli/HtCli.java:112-127 | When line `m` of the output as read (the first line trimmed) is the first that ends with the run marker or terminates, the lines after it stay unread. The shell closes exactly when that line does not end with the marker. |
| Cli.RespondResult | containers/containers-huskit/src/main/java/io/huskit/containers/cli/HtCli.java:115-132 | For the same stopping line, the result is the accepted lines before it, plus the line itself when it terminates. A run command registers the first result line, and fails with an index error, registering nothing, when there is none. |
| Cli.RespondRunsOut | containers/containers-huskit/src/main/java/io/huskit/containers/cli/HtCli.java:115-126 | When no line ends with the marker or terminates, the read consumes all output and fails with the read-limit failure. |
| Cli.RespondKeepsNoMarker | containers/containers-huskit/src/main/java/io/huskit/containers/cli/HtCli.java:115-124 | No line of a result is empty or ends with the run marker. |
| Cli.ExchangeClears | containers/containers-huskit/src/main/java/io/huskit/containers/cli/HtCli.java:97-106 | An exchange discards exactly the output up to and including the first clear-marker line and reads the reply from the rest. It writes the clear echo, the command and the run echo, in that order. |
| Cli.RmCommand | containers/containers-huskit/src/main/java/io/huskit/containers/cli/HtCli.java:138 | The cleanup command is `docker rm --force --volumes` followed by the given ids in order, and is not a run command. |
| Cli.AsRead | containers/containers-huskit/src/main/java/io/huskit/containers/cli/HtCli.java:112-126 | Only the first line read is trimmed; the others are taken as they arrive. |
| Cli.Recorder.Record | containers/containers-huskit/src/main/java/io/huskit/containers/cli/HtCli.java:103 | Recording appends the command to the commands sent so far. |
| Commands.ScanLines | containers/containers-huskit/src/main/java/io/huskit/containers/cli/HtCli.java:115-127 | The reading rule never consumes more lines than there are, and consumes at least one line of non-empty output. |
| Commands.ScanStopped | containers/containers-huskit/src/main/java/io/huskit/containers/cli/HtCli.java:115-124 | A read that stopped did so at the first line that ends with the marker or terminates. It kept exactly the accepted lines before that line, plus the line itself when it terminates; the marker line is never kept. |
| Commands.ScanUntil | containers/containers-huskit/src/main/java/io/huskit/containers/cli/HtCli.java:115-124 | Conversely, the first stopping line determines the whole read: what it keeps, how many lines it consumes, and how it ends. |
| Commands.ScanRanOut | containers/containers-huskit/src/main/java/io/huskit/containers/cli/HtCli.java:115-126 | A read that ran out met no stopping line and kept exactly the accepted lines. |
| Commands.ScanThrough | containers/containers-huskit/src/main/java/io/huskit/containers/cli/HtCli.java:115-126 | Conversely, output with no stopping line is consumed whole and yields its accepted lines. |
| Commands.ScanUsed | containers/containers-huskit/src/main/java/io/huskit/containers/cli/HtCli.java:115-127 | A read that stopped consumed its stopping line; one that ran out consumed everything. |
| Commands.ScanKeepsNoMarker | containers/containers-huskit/src/main/java/io/huskit/containers/cli/HtCli.java:115-124 | Kept lines are never empty and never end with the run marker. |
| Commands.ScanIgnoresRest | containers/containers-huskit/src/main/java/io/huskit/containers/cli/HtCli.java:115 | A read does not depend on the output after its stopping line. |
| Commands.Accepted | containers/containers-huskit/src/main/java/io/huskit/containers/cli/HtCli.java:116-124 | The kept lines are all lines of the input that are non-empty, are not the command's echo and pass the line predicate, and no others; there are never more of them than input lines. Order and repeats are stated by `AcceptedAppend` and `AcceptedSingle`. |
| Commands.AcceptedAppend | containers/containers-huskit/src/main/java/io/huskit/containers/cli/HtCli.java:116-124 | Filtering goes line by line, as `lines.add` does: the lines kept from two stretches of output are those of the first followed by those of the second. So the kept lines are in input order, and repeats are kept. |
| Commands.AcceptedSingle | containers/containers-huskit/src/main/java/io/huskit/containers/cli/HtCli.java:116-124 | A single line is kept exactly when it is non-empty, is not the command's echo and passes the line predicate. |
| Commands.Distinct | containers/containers-huskit/src/main/java/io/huskit/containers/cli/HtCli.java:138 | The ids handed to the removal are those of the queue, each exactly once, ordered by their first occurrence in the queue, as a `LinkedHashSet` iterates. |
| Commands.DistinctOfDistinct | containers/containers-huskit/src/main/java/io/huskit/containers/cli/HtCli.java:138 | A queue without repeats is removed as it stands, in its order. |
| Commands.CommandResult.SingleLine | containers/containers-huskit/src/main/java/io/huskit/containers/cli/CommandResult.java:14-19 | Succeeds exactly when there is one line, and returns it. Otherwise it fails with "Expected a single line, but got N lines", where N is the line count. |
| Shells.Shell.constructor | containers/containers-huskit/src/main/java/io/huskit/containers/cli/Shell.java:5-19 | A new shell has all its output still to come, nothing written, and is open. |
| Shells.Shell.Write | containers/containers-huskit/src/main/java/io/huskit/containers/cli/Shell.java:7 | A write appends its text, as one entry, to what the process was given. |
| Shells.Shell.Close | containers/containers-huskit/src/main/java/io/huskit/containers/cli/Shell.java:19 | After closing, the shell is closed. |
| Shells.Shell.WriteTokens | containers/containers-huskit/src/main/java/io/huskit/containers/cli/Shell.java:9-11 | Writes the tokens joined with single spaces, as one write. |
| Shells.Shell.Echo | containers/containers-huskit/src/main/java/io/huskit/containers/cli/Shell.java:21-23 | Writes exactly `"echo " + message`. |
| Shells.EchoText | containers/containers-huskit/src/main/java/io/huskit/containers/cli/Shell.java:21-23 | The echo text starts with `echo ` and the rest is the message. |
| Shells.Shell.ClearBuffer | containers/containers-huskit/src/main/java/io/huskit/containers/cli/Shell.java:25-31 | Writes the echo of the marker first. It then consumes output up to and including the first line exactly equal to the marker, leaving the rest unread. When no such line comes it fails with the read-limit failure, having consumed everything. |
| Shells.Shell.OutLine | containers/containers-huskit/src/main/java/io/huskit/containers/cli/Shell.java:17 | Returns and consumes the next output line; with none left, it fails with the read-limit failure. |
| Shells.Shell.Type | containers/containers-huskit/src/main/java/io/huskit/containers/cli/Shell.java:13 | The kind of shell it was started as. |
| Shells.LazyShell.constructor | containers/containers-huskit/src/main/java/io/huskit/containers/cli/LazyShell.java:10-12 | A lazy shell starts without a process. |
| Shells.LazyShell.Get | containers/containers-huskit/src/main/java/io/huskit/containers/cli/LazyShell.java:10-12 | The process is started on first use and at most once; afterwards the same one is returned. |
| Shells.LazyShell.Write | containers/containers-huskit/src/main/java/io/huskit/containers/cli/LazyShell.java:15-17 | Starts the process if needed, then appends the text to what was written; nothing else changes. |
| Shells.LazyShell.Type | containers/containers-huskit/src/main/java/io/huskit/containers/cli/LazyShell.java:20-22 | Starts the process if needed and returns its kind; nothing written or read. |
| Shells.LazyShell.OutLine | containers/containers-huskit/src/main/java/io/huskit/containers/cli/LazyShell.java:33-35 | Starts the process if needed and returns the next line of its output, or the read-limit failure when none is left. |
| Shells.LazyShell.Pid | containers/containers-huskit/src/main/java/io/huskit/containers/cli/LazyShell.java:25-30 | Fails with "Cannot get PID of uninitialized shell" exactly when there is no process. It starts none, and otherwise returns the process id. |
| Shells.LazyShell.Close | containers/containers-huskit/src/main/java/io/huskit/containers/cli/LazyShell.java:38-42 | Afterwards the shell is closed exactly when a process exists; without one it starts nothing. The output still to come and what was written are unchanged. |
| Io.BufferLines.constructor | common/src/test/java/io/huskit/common/io/BufferLinesTest.java:24 | A decoder starts with nothing retained, nothing pulled and no lines handed out. |
| Io.BufferLines.Next | common/src/test/java/io/huskit/common/io/BufferLinesTest.java:21-299 | Keeps the decoder invariant: the lines handed out, each with a terminator, followed by the retained bytes, are exactly the bytes pulled. `NextOutcome` holds: at most `limit` pulls and none once a terminator is at hand. On success it returns the bytes before the first terminator and retains those after it. Otherwise it fails with "Couldn't find new line after N reads" after exactly `limit` pulls, keeping every byte. |
| Io.BufferLines.Fill | common/src/test/java/io/huskit/common/io/BufferLinesTest.java:209-241 | Appends pulled chunks while the retained bytes hold no terminator, at most `limit` of them, and reports the first terminator. |
| Io.BufferLines.TakeLine | common/src/test/java/io/huskit/common/io/BufferLinesTest.java:80-86 | Hands out the terminator-free text before the first terminator and retains what follows the terminator. |
| Io.PullUntilTerminator | common/src/test/java/io/huskit/common/io/BufferLinesTest.java:209-241 | The retry loop stops at the first terminator or at the ceiling. It pulls no chunk once a terminator is at hand, and hitting the ceiling means exactly `limit` pulls. |
| Io.NextDetermined | common/src/test/java/io/huskit/common/io/BufferLinesTest.java:39-53 | `next()` is determined by its source. If `m` is the fewest pulls within the limit that bring a terminator, it pulls exactly `m` chunks and returns the text before the first terminator of the bytes at hand. |
| Io.NextReturnsLine | common/src/test/java/io/huskit/common/io/BufferLinesTest.java:39-53 | The same, read off a known split: `next()` returns the line and retains what follows its terminator. |
| Io.NextExhausted | common/src/test/java/io/huskit/common/io/BufferLinesTest.java:21-28 | Without a terminator within `limit` pulls, `next()` fails with the read-limit message and keeps every byte. |
| Io.SplitJoined | common/src/test/java/io/huskit/common/io/BufferLinesTest.java:243-260 | Decoding inverts encoding: the text of some terminator-free lines, followed by anything, splits into those lines first. |
| Io.LinesFollowSplit | common/src/test/java/io/huskit/common/io/BufferLinesTest.java:64-78 | Whatever the chunking, the lines handed out are the leading lines of the pulled text split at its terminators. |
| Io.RepeatedChunkLines | common/src/test/java/io/huskit/common/io/BufferLinesTest.java:278-299 | A source yielding the same complete lines on every pull hands them out in order, however long they are. |
| Io.FirstTerminatorSpec | common/src/test/java/io/huskit/common/io/BufferLinesTest.java:262-276 | The terminator search finds the leftmost CR LF, including one formed across two chunks, and finds none only when there is none. |
| BufferLinesCases.OnlyTerminator | common/src/test/java/io/huskit/common/io/BufferLinesTest.java:30-37 | A bare "\r\n" chunk yields one empty line. |
| BufferLinesCases.TerminatorAcrossChunks | common/src/test/java/io/huskit/common/io/BufferLinesTest.java:39-53 | "\r" then "\n" in the next chunk form one terminator and yield an empty line. |
| BufferLinesCases.SplitTerminatorKeepsRest | common/src/test/java/io/huskit/common/io/BufferLinesTest.java:262-276 | "qwe\r" then "\nrty" yield "qwe" and retain "rty". |
| BufferLinesCases.ThirdChunkCompletes | common/src/test/java/io/huskit/common/io/BufferLinesTest.java:225-241 | "qwe", "rty", "uio\r\n" yield "qwertyuio". |
| BufferLinesCases.TwoLinesOneChunk | common/src/test/java/io/huskit/common/io/BufferLinesTest.java:80-86 | Two lines in one chunk come out one per call, in order. |
| BufferLinesCases.EmptyLinesThenExhausted | common/src/test/java/io/huskit/common/io/BufferLinesTest.java:141-162 | "\r", "\n", "\r", "\n", then "\r" forever: two empty lines, then the read-limit failure. |
| BufferLinesCases.NoTerminatorWithinLimit | common/src/test/java/io/huskit/common/io/BufferLinesTest.java:21-28 | "asd" forever with a limit of 1000 fails with "Couldn't find new line after 1000 reads". |
| DockerArgs.ListArgs | containers/containers-huskit/src/integrationTest/java/io/huskit/containers/internal/cli/HtCliDckrIntegrationTest.java:91-141 | `docker ps`, then `-a` when listing all, then the id filter, then the label filter, then the two formats, token by token. |
| DockerArgs.ListArgsInjective | containers/containers-huskit/src/integrationTest/java/io/huskit/containers/internal/cli/HtCliDckrIntegrationTest.java:105-141 | Different listing requests give different command lines, for label keys without `=`. |
| DockerArgs.InspectArgs | containers/containers-huskit/src/integrationTest/java/io/huskit/containers/internal/cli/HtCliDckrIntegrationTest.java:175-192 | `docker inspect --format "{{json .}}"` and the id. |
| DockerArgs.LogsArgs | containers/containers-huskit/src/integrationTest/java/io/huskit/containers/internal/cli/HtCliDckrIntegrationTest.java:296-351 | `docker logs`, then `-f` when following, then the id. |
| DockerArgs.LabelArgs | containers/containers-huskit/src/integrationTest/java/io/huskit/containers/internal/cli/HtCliDckrIntegrationTest.java:156-171 | One `--label "k=v"` pair per label, in insertion order. |
| DockerArgs.RunArgs | containers/containers-huskit/src/integrationTest/java/io/huskit/containers/internal/cli/HtCliDckrIntegrationTest.java:156-171 | `docker run -d`, then `--rm` when removing, then the labels in order, then the image last. |
| DockerArgs.NewRmImages | containers/containers-huskit/src/test/java/io/huskit/containers/internal/cli/HtCliRmImagesSpecTest.java:13-25 | An empty id list fails with IllegalArgumentException "Image IDs must not be empty". Any other list gives a request with neither flag. |
| DockerArgs.RmImagesArgs | containers/containers-huskit/src/test/java/io/huskit/containers/internal/cli/HtCliRmImagesSpecTest.java:27-61 | `docker rmi`, then `--force` when forcing, then `--no-prune` when asked, then the ids in order. |
| DockerArgs.RmImagesOrderIrrelevant | containers/containers-huskit/src/test/java/io/huskit/containers/internal/cli/HtCliRmImagesSpecTest.java:63-79 | With both flags, `--force` precedes `--no-prune` whichever was set first. |
| DockerArgs.RmImagesRoundTrip | containers/containers-huskit/src/test/java/io/huskit/containers/internal/cli/HtCliRmImagesSpecTest.java:27-79 | The removal request can be read back off its command line, for ids that do not look like the flags. |
| ContainerMap.Field | containers/containers-huskit/src/test/java/io/huskit/containers/internal/HtContainerFromMapTest.java:22-31 | A lookup succeeds exactly when the key is present, returns its value, and otherwise fails with an IllegalStateException naming the key. |
| ContainerMap.StringField | containers/containers-huskit/src/test/java/io/huskit/containers/internal/HtContainerFromMapTest.java:13-51 | `id()` and `name()` read a string value under their key (`Id` and `Name` apply it to "Id" and "Name"). The read succeeds exactly when the key holds a string and returns that string. Without the key it fails with an IllegalStateException naming the key. |
| ContainerMap.Labels | containers/containers-huskit/src/test/java/io/huskit/containers/internal/HtContainerFromMapTest.java:53-86 | Without "Config" it fails naming "Config", and with a "Config" lacking "Labels" it fails naming "Labels". It succeeds exactly when Config.Labels is an object of strings, and then returns those keys with their texts, whatever else Config holds. |
| ContainerMap.StringMap | containers/containers-huskit/src/test/java/io/huskit/containers/internal/HtContainerFromMapTest.java:53-62 | A labels object whose values are all strings is read as the string map with the same keys and texts. |
| ContainerMap.IdNameRoundTrip | containers/containers-huskit/src/test/java/io/huskit/containers/internal/HtContainerFromMapTest.java:13-40 | An id or name stored as a string is read back unchanged. |
| ContainerMap.LabelsRoundTrip | containers/containers-huskit/src/test/java/io/huskit/containers/internal/HtContainerFromMapTest.java:53-62 | Labels stored under Config.Labels are read back unchanged. |
| HttpRemoval.HttpRm.Exec | containers/containers-huskit/src/main/java/io/huskit/containers/http/HttpRm.java:14-27 | Sends one request per id, in order, each built from its own id. It succeeds exactly when there was an id; with none it sends nothing and fails with "Received empty container ID list for removal". |
| HttpRemoval.Requests | containers/containers-huskit/src/main/java/io/huskit/containers/http/HttpRm.java:16-21 | One request per id, the i-th built from the i-th id. |
| HttpRemoval.RequestsAppend | containers/containers-huskit/src/main/java/io/huskit/containers/http/HttpRm.java:16-23 | The requests for consecutive runs of ids are the requests for the whole run. |
| HttpRemoval.Socket.Send | containers/containers-huskit/src/main/java/io/huskit/containers/http/HttpRm.java:17-21 | Sending appends the request to what the socket has carried. |
| Mutables.DfMutable.Set | common/src/main/java/io/huskit/common/internal/DfMutable.java:24-26 | Null fails with NullPointerException "value" and changes nothing. Otherwise it stores the value, after which `isPresent`, `require` and `maybe` all report it. |
| Mutables.DfMutable.IsPresent | common/src/main/java/io/huskit/common/internal/DfMutable.java:29-31 | True exactly when a value is held. |
| Mutables.DfMutable.IsEmpty | common/src/main/java/io/huskit/common/Mutable.java:24-26 | The negation of `isPresent`. |
| Mutables.DfMutable.Check | common/src/main/java/io/huskit/common/internal/DfMutable.java:35-38 | False on an empty cell, otherwise the predicate on the value. |
| Mutables.DfMutable.Maybe | common/src/main/java/io/huskit/common/internal/DfMutable.java:41-43 | Holds the value exactly when the cell does. |
| Mutables.DfMutable.Or | common/src/main/java/io/huskit/common/internal/DfMutable.java:46-49 | The value if present, else `other`, which must not be null (NullPointerException "other"). |
| Mutables.DfMutable.OrGet | common/src/main/java/io/huskit/common/internal/DfMutable.java:53-56 | The value if present, else what the supplier gives, which must not be null (NullPointerException "supplier"). |
| Mutables.DfMutable.MapOr | common/src/main/java/io/huskit/common/internal/DfMutable.java:60-63 | The mapper on the value when present, else the fallback. Neither may give null, and each null is reported under its own name. |
| Mutables.DfMutable.IfPresent | common/src/main/java/io/huskit/common/internal/DfMutable.java:67-72 | The consumer runs on the value exactly when there is one; the fallback branch never runs. |
| Mutables.DfMutable.IfPresentOrElse | common/src/main/java/io/huskit/common/internal/DfMutable.java:76-83 | Exactly one branch runs: the consumer on the value when present, else the fallback. |
| Mutables.DfMutable.Require | common/src/main/java/io/huskit/common/internal/DfMutable.java:86-92 | The value when present, else NoSuchElementException "No value present". |
| Mutables.DfMutable.Empty | common/src/main/java/io/huskit/common/internal/DfMutable.java:20-21 | A cell made without a value is empty. |
| Mutables.DfMutable.Of | common/src/main/java/io/huskit/common/internal/DfMutable.java:20-21 | A cell made with a value holds it. |
| Mutables.ReadersAgree | common/src/main/java/io/huskit/common/internal/DfMutable.java:35-92 | `or`, `ifPresent`, `ifPresentOrElse` and `check` agree with what `require` says about the cell. |
| MongoIds.MongoId.JsonText | plugins/containers-plugin/containers-model/src/main/java/io/huskit/containers/model/id/MongoContainerId.java:28-36 | Returns the JSON of the fields. It is computed on the first call and cached, so every later call returns the cached, equal string. |
| MongoIds.MongoId.ToString | plugins/containers-plugin/containers-model/src/main/java/io/huskit/containers/model/id/MongoContainerId.java:39-41 | The same string as `json()`. |
| MongoIds.MongoId.constructor | plugins/containers-plugin/containers-model/src/main/java/io/huskit/containers/model/id/MongoContainerId.java:20-25 | A new id holds its fields and no cached JSON. |
| MongoIds.JsonFields | plugins/containers-plugin/containers-model/src/main/java/io/huskit/containers/model/id/MongoContainerId.java:13-32 | The JSON is exactly the template text with the five fields in their fixed order, string values verbatim between quotes and booleans bare. Nothing else is in it. |
| MongoIds.RenderFields | plugins/containers-plugin/containers-model/src/main/java/io/huskit/containers/model/id/MongoContainerId.java:31-32 | Any template of this shape places each field right after its own name. |
| MongoIds.Render | plugins/containers-plugin/containers-model/src/main/java/io/huskit/containers/model/id/MongoContainerId.java:31-32 | A rendering starts with the template's opening text. |
| MongoIds.BoolText | plugins/containers-plugin/containers-model/src/main/java/io/huskit/containers/model/id/MongoContainerId.java:17-18 | A boolean is printed as `true` or `false`: the first letter is `t` exactly for true. |
| MongoIds.JsonInjective | plugins/containers-plugin/containers-model/src/main/java/io/huskit/containers/model/id/MongoContainerId.java:28-36 | When string fields contain no quote, the JSON determines the id. |
| MongoIds.RenderInjective | plugins/containers-plugin/containers-model/src/main/java/io/huskit/containers/model/id/MongoContainerId.java:31-32 | The same for any template of this shape. |
| MongoIds.VerbatimCollision | plugins/containers-plugin/containers-model/src/main/java/io/huskit/containers/model/id/MongoContainerId.java:31-32 | Values are inserted verbatim, without escaping. So a root project name holding a quote and the next field's name gives the same JSON as a different id. |
| MongoIds.RenderCollision | plugins/containers-plugin/containers-model/src/main/java/io/huskit/containers/model/id/MongoContainerId.java:31-32 | The same collision for any template of this shape. |
| OperatingSystems.InitOs | common/src/main/java/io/huskit/common/Os.java:26-36 | A missing or blank name fails with the blank-name message. Otherwise the answer is a constant whose pattern occurs in the lower-cased name, and no earlier constant's pattern does. When none occurs, it fails with "Cannot determine current os". |
| OperatingSystems.FirstMatch | common/src/main/java/io/huskit/common/Os.java:32-34 | Finds the first constant, in the given order, whose pattern occurs in the name, or none when no pattern does. |
| OperatingSystems.DarwinIsWindows | common/src/main/java/io/huskit/common/Os.java:13-34 | Any name containing "darwin", in any case, is classified as Windows, since "darwin" contains "win". |
| OperatingSystems.CaseInsensitive | common/src/main/java/io/huskit/common/Os.java:31 | A name and its lower case are classified alike. |
| OperatingSystems.LowerKeepsBlank | common/src/main/java/io/huskit/common/Os.java:28-31 | Lower-casing keeps a name blank exactly when it was blank. |
| OperatingSystems.CurrentOs.Current | common/src/main/java/io/huskit/common/Os.java:38-40 | Always the classification of this machine's name; a successful answer is remembered. |
| OperatingSystems.CurrentOs.IsCurrent | common/src/main/java/io/huskit/common/Os.java:22-24 | True exactly for the constant `current()` returns; fails as `current()` does. |
| OperatingSystems.CurrentOs.constructor | common/src/main/java/io/huskit/common/Os.java:20 | Nothing is remembered at first. |
| EnvSpecs.DefEnvSpec.constructor | containers/containers-huskit/src/main/java/io/huskit/containers/integration/DefEnvSpec.java:15 | The cell starts holding an empty map, so `require()` cannot fail. |
| EnvSpecs.DefEnvSpec.Pair | containers/containers-huskit/src/main/java/io/huskit/containers/integration/DefEnvSpec.java:18-21 | Sets one variable, overwriting an earlier value of that key; the map stays present. |
| EnvSpecs.DefEnvSpec.Map | containers/containers-huskit/src/main/java/io/huskit/containers/integration/DefEnvSpec.java:24-30 | After putting every entry, whatever the iteration order, the map is the old one overridden by all entries of the argument. |

## Left out

- The log-follow path of `DockerShell.sendCommand` (HtCli.java:87-96) is not modelled. `LogFollow` is not part of this model and depends on wall-clock timeouts. `Cli.DockerShell.SendCommand` and `Cli.HtCli.SendCommand` therefore require a command that is not a follow command.
- Concurrency is not modelled: the `@Locked` lock, the atomic flags and the concurrent queue. Every operation is sequential.
- The shutdown hook the session registers (HtCli.java:83) is left out. `Stop` is idempotent, and that is what the hook relies on.
- The result mapper of `sendCommand` is not modelled. Commands return the `CommandResult` itself, which is the identity mapper of the one-argument overload; a consumer-based overload adds nothing to state.
- `Cli.DockerShell.Stop` follows the code, not the intent: `stop` has no try/finally. A failing removal therefore propagates, leaves the shell open, and `close` does not mark the channel closed.
- The cleanup removal goes through the session's own `SendCommand` rather than through the parent channel. The two are the same here because the channel is marked closed only after `stop` returns.
- `docker rm --force --volumes` is assumed to be the token list of a forced, volume-removing `HtCliRmSpec`; `HtCliRmSpec` is not part of this model.
- `Shells.Shell.Write`, `Shells.Shell.OutLine` and `Shells.Shell.ClearBuffer` do not read the closed flag, so a closed shell is not modelled as failing. What a closed process does is left to the `Shell` implementation, which is not part of this model. As a result, after a terminating line has closed the shell, a further `Cli.HtCli.SendCommand` reads the remaining output as if the process were still running.
- `HtCli` is modelled over the concrete `Shell` state. `LazyShell` is modelled on its own, with its forwarding.
- The read limit of the shell's line decoder is a parameter of the shell (`ShellSpec.readLimit`). Reading past the end of the output stands for reaching that limit.
- `BufferLines` itself is not part of this model: the decoder is modelled from the behaviour its tests pin down.
  - The test cases not written out (single letters, "asdf", many lines) are instances of `Io.NextReturnsLine` and `Io.LinesFollowSplit`.
  - The 150-line test is covered in general by `Io.RepeatedChunkLines`.
  - Several tests pass only a source and so rely on the default read limit; those cases take the limit as a parameter.
- Bytes are ASCII characters. UTF-8 decoding is not modelled, and `toLowerCase`, `trim` and `isBlank` are their ASCII versions.
- The laziness of the builders is shown by making each request a pure value: building one records nothing, and only `SendCommand` records. The argv tests' recorder is not re-modelled per builder.
- Only one label filter and one id filter are modelled per listing. `run` options other than labels and removal (`withCommand` and so on) are not modelled.
- The exact text of the missing-key message is not known, because `HtContainerFromMap.java` is not part of this model. `ContainerMap.Field` states only that the message names the key.
- `ContainerMap.StringField`, `ContainerMap.ObjectField` and `ContainerMap.StringMap`: a value of the wrong JSON shape is assumed to fail as a ClassCastException naming the key (`ClassCast`). `HtContainerFromMap.java` is not part of this model, and its tests do not exercise that case.
- `DefEnvSpec` takes keys and values already converted by `toString()`; the conversion is not modelled.
- Consumers and callbacks that may throw (`@SneakyThrows`) are pure functions here. A consumer's effect is represented by the `Branch` it ran.
- `MemoizedSupplier` is modelled as caching a successful answer only. `CurrentOs.Current` recomputes after a failure, which gives the same answer because the name is fixed.
- The HTTP request text (`spec.toRequest`) is a function parameter, and the socket is a log of requests.
