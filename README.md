# tee_shim in Dafny

A model of `tee_shim`, a process-launching shim. The shim reads a sidecar
configuration file (`path`, `args`, `log`), spawns the configured program
with the caller's arguments followed by the configured `args` value, and
either lets the child use the shim's own standard streams or, when a `log`
prefix is set, relays the child's stdout and stderr to the console while
copying each stream to its own log file (`<log>.stdout.log`,
`<log>.stderr.log`). The shim succeeds only when the child does: once the
child is spawned and, in logging mode, both log files are created and both
relays have succeeded, it succeeds exactly when the child exits with code 0.

Modules, one per part of `src/main.rs`:

- `Text` (text.dfy): Rust's `trim`, `trim_matches` and `split_once`.
- `ShimConfig` (shim_config.dfy): `read_shim_file` from its line loop on.
  `ParseLine`, `ParseLines` and `Resolve` are the pure specification, and
  `ReadShimFile` is the imperative loop proved equal to it. `ApplyAll` is
  the same fold stated over the lines' recognised assignments, where the
  "last assignment wins" theorems are proved.
- `Relay` (relay.dfy): the tee loop `copy_and_print`. `Step` is one pass of
  the loop body and `Tee` is the whole loop. The `Pipe` and `Sink` classes
  stand for the reader, the console and the log file. `CopyAndPrint` is the
  loop over a 1024-byte buffer, proved to end in the state and with the
  result `Tee` gives.
- `Launch` (launch.dfy): the child's argument vector and the log file names.
- `Shim` (shim.dfy): `main`'s sequence of operations and its exit decision.
  Everything the operating system answers is an input (a `World`).

Modelling choices:

- Whitespace for `trim` is the Unicode White_Space set that Rust's
  `char::is_whitespace` uses, written out as character ranges.
- The pipe is a queue of read events: some bytes (none means end of
  stream) or an error. A read returns at most the buffer's size and leaves
  the rest of a longer event queued.
- Each sink has a failure schedule with one entry per operation. An entry
  accepts the operation, or makes it fail after accepting a number of
  bytes, so a partial `write_all` is possible.
- Two behaviours of the code worth knowing:
  - `trim_matches('"')` strips every leading and trailing quote, not one
    pair: the value `""x""` is stored as `x`.
  - The child is spawned before the log files are created
    (src/main.rs:39-73). A log file that cannot be created therefore ends
    the shim after the child was started.

## Model

| member | source | states |
|---|---|---|
| `Text.Trim` | src/main.rs:167-168 | the result is a contiguous piece of the input that neither starts nor ends with a dropped character, and everything cut from either side is a dropped character |
| `Text.SplitOnce` | src/main.rs:166 | `None` exactly when the separator is absent; otherwise the input is before + separator + after, with no separator in before |
| `Text.SplitOnceAtFirst` | src/main.rs:166 | the split is at the first `=`: for a key without `=`, `key + "=" + rest` splits into exactly `key` and `rest`, even when `rest` holds more `=` |
| `Text.TrimLeavesKept` | src/main.rs:167-168 | a string that neither starts nor ends with a dropped character is left as it is by a trim |
| `Text.TrimIdempotent` | src/main.rs:167-168 | trimming twice is the same as trimming once |
| `ShimConfig.Unquote` | src/main.rs:168 | a stored value never starts or ends with `"`, and stripping quotes from it again changes nothing |
| `ShimConfig.ParseLine` | src/main.rs:166-174 | a line sets exactly the field its recognised key names, to its unquoted value, and leaves the other fields as they were; a line without `=` or with another key changes nothing |
| `ShimConfig.ParseLines` | src/main.rs:153-176 | reading the lines first to last from the initial configuration is applying each line's recognised assignment in order |
| `ShimConfig.Resolve` | src/main.rs:177-184 | the file is accepted with the parsed configuration when its path is non-empty, and rejected with `MissingPath` when the path stayed empty |
| `ShimConfig.ReadShimFile` | src/main.rs:153-184 | the line loop that mutates the config field by field returns exactly `Resolve(lines)` |
| `ShimConfig.LineWithoutEqualsIgnored` | src/main.rs:166 | a line without `=` leaves the configuration unchanged |
| `ShimConfig.UnknownKeyIgnored` | src/main.rs:169-173 | a line whose trimmed key is not `path`, `args` or `log` leaves the configuration unchanged |
| `ShimConfig.AssignmentSplitsAtFirstEquals` | src/main.rs:166-168 | the key is the trimmed text before the first `=`, and the value is built from all of the text after it |
| `ShimConfig.ApplySetsOneField` | src/main.rs:169-172 | an assignment sets only the field its key names, to its value; the other two fields keep their values |
| `ShimConfig.LastAssignmentWins` | src/main.rs:158-176 | after the whole file, each field holds the value from the last line that assigns its key |
| `ShimConfig.UnassignedFieldStaysInitial` | src/main.rs:153-157 | a field that no line assigns keeps its initial value: empty path, no args, no log |
| `ShimConfig.ResolveAcceptsIff` | src/main.rs:177-184 | the file is accepted exactly when the last `path` line gives a non-empty value, and then the parsed configuration is returned |
| `ShimConfig.EmptyPathRejected` | src/main.rs:170-183 | a final `path = ""` line makes the file rejected |
| `ShimConfig.QuotedLineAssigns` | src/main.rs:166-173 | a line `name = "body"` assigns `body` to the key `name` when `name` is a key, and is ignored otherwise: the spaces around `=` and the quotes around the value are stripped |
| `ShimConfig.EchoFileResolves` | src/main.rs:166-184 | the file `path = "/bin/echo"`, `args = "hello"` is accepted as path `/bin/echo`, argument `hello`, no log prefix |
| `Launch.ChildArgs` | src/main.rs:34-41 | the child's arguments are the caller's arguments without the program name, in order, then the `args` value as exactly one more argument when it is set |
| `Launch.StdoutLogName` | src/main.rs:54 | the stdout log name is the prefix followed by `.stdout.log` |
| `Launch.StderrLogName` | src/main.rs:64 | the stderr log name is the prefix followed by `.stderr.log` |
| `Launch.LogNamesNeverCoincide` | src/main.rs:54-64 | a stdout log name never equals a stderr log name, whatever the prefixes |
| `Launch.LogNamesDetermineThePrefix` | src/main.rs:54-64 | different prefixes give different log names |
| `Relay.ReadStep` | src/main.rs:119-122 | a read returns at most the buffer's size; a non-empty chunk is the front of the stream's remaining bytes and the rest stays queued; an empty read or an error is where the stream ends |
| `Relay.WriteStep` | src/main.rs:124-127 | `write_all` appends the whole chunk when it succeeds; when it fails it appends only a prefix of the chunk |
| `Relay.FlushStep` | src/main.rs:126 | a successful flush marks everything written as flushed; a failed flush changes no data |
| `Relay.Step` | src/main.rs:120-129 | one pass: an empty read ends with `Ok`; a read error ends with that error; otherwise a chunk of at most 1024 bytes is read, written to the console and flushed, and only then written to the log; the loop continues only when both sinks hold the whole chunk |
| `Relay.Tee` | src/main.rs:119-131 | the whole loop, one `Step` after another until a pass ends it; the console never has more bytes marked flushed than written, and a log that starts that way stays that way |
| `Relay.TeeCopiesStream` | src/main.rs:119-131 | unless a write or flush fails, both the console and the log receive exactly the stream's bytes in order; the loop stops at the first empty read, and returns `Ok` exactly when the stream did not end in a read error |
| `Relay.TeeHealthySinks` | src/main.rs:121-127 | with sinks that never fail, only a read error can end the loop with an error |
| `Relay.TeeSucceedsIff` | src/main.rs:120-131 | with sinks that never fail, the loop succeeds exactly when the stream ends cleanly, and then both sinks hold the stream |
| `Relay.TeeOnlyAppends` | src/main.rs:124-127 | the loop only appends to the sinks and never unflushes the console |
| `Relay.TeeSinksFollowStream` | src/main.rs:121-127 | in every outcome, the bytes read are a prefix of the stream, the console's new bytes are a prefix of those, and the log's new bytes are a prefix of the console's |
| `Relay.TeeLogTrailsConsole` | src/main.rs:124-127 | every byte in the log was flushed to the console first, and at most one chunk (1024 bytes) was read but not fully logged |
| `Relay.TeeCompletesEarlierChunks` | src/main.rs:119-127 | after a failed write or flush, there is a state the loop reached by whole passes in which both sinks hold exactly everything read so far, and a single pass from that state, which reads one chunk of at most 1024 bytes and gives each sink only a prefix of it, is the one that ends the loop |
| `Relay.TeeStopsAtFailedWrite` | src/main.rs:119-127 | after a failed write or flush the loop ended with the pass that read the failing chunk, so nothing after it was read: the bytes read plus the bytes still in the pipe are the stream, and every earlier chunk is whole in both sinks |
| `Relay.Pipe.Read` | src/main.rs:121 | copies the next chunk into the front of the buffer and returns its length, or fails, as `ReadStep` says |
| `Relay.Sink.WriteAll` | src/main.rs:124 | the sink's new state is what `WriteStep` gives for the first `n` bytes of the buffer |
| `Relay.Sink.Flush` | src/main.rs:126 | the sink's new state is what `FlushStep` gives |
| `Relay.CopyAndPrint` | src/main.rs:114-132 | the loop over a 1024-byte buffer ends in exactly the state and with exactly the result `Tee` gives, so the `Tee` lemmas hold of it |
| `Shim.RunShim` | src/main.rs:33-111 | nothing is done unless the configuration is accepted; the first operation spawns the configured command; the shim completes only after waiting for the child, as its last operation |
| `Shim.ChildCommand` | src/main.rs:39-45 | the configured program runs with `ChildArgs` and inherits stdin; stdout and stderr are piped exactly when a log prefix is set (lines 90-96 give the same program and arguments with all three inherited) |
| `Shim.Reap` | src/main.rs:108-111 | the shim completes exactly when the child exited with code 0, reports any other status as the failure, and fails when the wait failed |
| `Shim.RunFollowsPlan` | src/main.rs:37-108 | the shim carries out a prefix of its plan (spawn, in logging mode create both logs and join the relays, wait), stopping at the first failure, and waits exactly when it carried out the whole plan |
| `Shim.RunCompletesIff` | src/main.rs:35-111 | the shim completes exactly when the config is accepted, the spawn succeeds, in logging mode both log files are created and both relays succeed, and the child's exit status is a success |
| `Shim.ChildFailureIsReported` | src/main.rs:108-111 | a child that did not succeed never lets the shim complete, and once waited for it is reported with its status |
| `Shim.InvalidConfigSpawnsNothing` | src/main.rs:35 | a rejected configuration ends the run before anything is spawned or created |
| `Shim.SpawnsConfiguredCommand` | src/main.rs:39-45 | the first operation spawns the configured program with `ChildArgs`, the same in both branches; stdin is inherited, and stdout and stderr are piped exactly in logging mode |
| `Shim.WaitFollowsJoin` | src/main.rs:39-108 | only the first operation is a spawn; the wait comes after the join of the relays; in logging mode the order is create the stdout log, create the stderr log, join, wait; without a log prefix nothing is created or relayed |
| `Shim.CompletedRunLogsChildOutput` | src/main.rs:54-85 | after a completed logging run, each log file holds exactly what the child wrote to that stream, the console received the same bytes, and the two file names differ |
| `Shim.EchoExample` | src/main.rs:34-45 | the file `path = "/bin/echo"`, `args = "hello"` is accepted, and the shim run as `shim world` first spawns `/bin/echo world hello` with inherited streams |

## Left out

- Locating the sidecar file (`env::current_exe`, `set_extension("shim")`), opening it and reading its lines (`BufReader::lines`): this is I/O. The model starts from the file's lines, and the panics for an unopenable or unreadable file are not modelled.
- Process control (`Command::spawn`, `child.wait()`) and file creation are foreign calls. Their answers are inputs in `World`; only what is passed to them is modelled.
- The async runtime and the concurrency of the two relays under `tokio::try_join!` are left out. `RunShim` runs both relays to completion and fails when either fails. Which error `try_join!` reports first, and where the other relay is cancelled, depend on scheduling and are not modelled. So the log contents after a failed join are not stated.
- `Relay.Sink.WriteAll`: the log is written synchronously, and a failed log write is reported by that same write. The log is a `tokio::fs::File` (src/main.rs:3, 117). Its `write_all` returns `Ok` once the bytes are handed to a background write, and a failure of that write shows up only at the next write or flush. `copy_and_print` never flushes the log, so a failure on the last chunk is never reported. Modelling this would need a pending-error state in the sink.
- `Relay.TeeStopsAtFailedWrite` and `Relay.TeeCompletesEarlierChunks`: "no later chunk is read" and "earlier chunks are whole in the log" hold of the model only. In the program a failed background log write of one chunk is reported by the next chunk's `write_all` (src/main.rs:127), after that next chunk has been read, written to the console and flushed (src/main.rs:121-126).
- The console is also written through a background task (`tokio::io::stdout()`): its `write_all` returns `Ok` once the bytes are buffered, and a failed console write is reported by the `flush` at src/main.rs:126. The model reports it as `ConsoleWriteError` at the write. The final state is the same, because the loop stops before the log write either way; only the error label differs.
- `Relay.TeeCopiesStream`: because the log write is modelled as synchronous, it does not cover the real program returning `Ok(())` with a short log after the last log write failed in the background.
- `Relay.TeeLogTrailsConsole`: its bound of one chunk (1024 bytes) read but not logged holds for the model only. In the program a failed background log write of one chunk is reported by the next chunk's `write_all` (src/main.rs:127), after that next chunk has been read, written to the console and flushed (src/main.rs:121-126), so up to two chunks (2048 bytes) can be read and not logged.
- `Shim.CompletedRunLogsChildOutput`: the program can complete with a log file shorter than what the child wrote, when the last background log write fails, because `copy_and_print` never flushes the log; the model reports every log write failure, so it does not cover that run.
- `Shim.RunShim`: the caller's arguments are taken as strings. `env::args()` (src/main.rs:34) panics on an argument that is not valid Unicode, and that panic is not modelled; `Launch.ChildArgs` has the same input.
- `child.stdout.take().expect(...)` cannot fail when the streams are piped, so it is not modelled.
- Panic messages, ANSI colour macros and other diagnostic text are not modelled. This includes the missing dot in the stderr log-file message.
- Rust's exit status is reduced to "exited with a code" or "ended by a signal"; success is exit code 0.
- time.py is a demo child program with no logic of the shim, so it is not part of this model.
