# ind: line prefixing of a child's output, modelled in Dafny

`ind` runs a command with its stdout and stderr connected to pipes. It copies
everything the command writes to its own stdout and stderr, and puts a prefix
(default two spaces for stdout, `>>` for stderr) and a postfix (default empty)
around every line. This project models the logic of `ind.c`:

- `process` is the line-prefixing engine. It does one read of at most 127 bytes
  and writes each '\n'-terminated line as prefix, line, postfix and newline.
  The prefix goes out only when the caller's `emptyline` flag is set. The bytes
  after the last newline go out bare.
- `safe_write` is the full-write loop. It retries `write` until every byte is
  sent, a call fails, or a call returns 0.
- The retirement bookkeeping of `main`'s loop. Each live descriptor gets one
  `process` call per pass, stdout first. The first time `process` returns 1,
  the descriptor is set to -1 and `nclosed` goes up. The loop ends when
  `nclosed > 1`.

Modules, in dependency order:

| file | module | contents |
|---|---|---|
| `bytes.dfy` | `Bytes` | bytes, the newline, `memchr` as `FirstNewline`, newline counts, prefixes of sequences |
| `safe_write.dfy` | `SafeWrite` | `safe_write` against a write oracle, as a function and as the loop itself, and runs of several calls |
| `line_engine.dfy` | `LineEngine` | `process` when every write succeeds, a line-by-line picture of its output, and calls folded over reads |
| `relay.dfy` | `Relay` | `process` with every write going through `safe_write`, for each kind of destination |
| `supervisor.dfy` | `Supervisor` | the loop of `main` over two channels, generic in the per-descriptor step, and `Supervise`, which runs it with `process` |

The world is passed in as parameters:

- Reads are given as a sequence of `Read` values per descriptor. A `Read` is
  `Chunk(data)` with 1 to 127 bytes, `Eof` (0), or `Failed` (negative).
- A destination is a `Writer`. It is a function from the index of a `write`
  call and the byte count asked for to the value that call returns. It is
  `Honest` when it never reports more bytes than were asked for. The
  destination always receives the leading bytes of what it was offered.

The program itself sets the constants `LineEngine.BufSize` (128),
`LineEngine.MaxRead` (127) and `Supervisor.Defaults` (prefixes `"  "` and
`">>"`, empty postfixes, ind.c:143-146). It also fixes the initial loop state,
`Supervisor.Start`. `Supervisor.DefaultsExample` runs the loop with the
defaults on one line per stream.

### Behaviour worth knowing

- Only '\n' ends a line (ind.c:105).
- The bytes after the last '\n' of a read are written bare, and the flag is
  kept (ind.c:125-129). So "a\nb" with prefix "# " comes out as "# a\nb"
  (`LineEngine.TailGetsNoPrefix`).
- Because of this, the output depends on how the stream is split into reads.
  "a" then "\n" gives "a" + prefix + "\n" (`LineEngine.SplitReadMovesPrefix`).
- Every negative read means "continue" (ind.c:101, 131).
- A `write` that returns 0 makes `safe_write` return a short count. `process`
  only checks for a negative value, so the unsent bytes are lost without
  notice (ind.c:38-42, 107-129, `Relay.StalledSinkDropsSilently`).
- When a write fails, the `emptyline` flag keeps whatever value it had at that
  moment (ind.c:106-121). An empty prefix still counts as written, so the flag
  can be cleared for a line that never went out (`Relay.BrokenSinkFlag`).
- `main` always ends with `exit(0)` and never waits for the child (ind.c:227).

## Model

| member | source | states |
|---|---|---|
| Bytes.FirstNewline | ind.c:105 | `memchr` finds the first '\n': the index is within the chunk, the byte there is '\n', and no '\n' comes before it |
| Bytes.NoNewlineCount | ind.c:105 | a chunk has no '\n' exactly when its newline count is 0 |
| SafeWrite.WriteFrom | ind.c:33-45 | resuming at `offset`, the destination ends with a prefix of the buffer that keeps the first `offset` bytes; a non-negative return is the number of bytes delivered, and a negative return means not all of them were |
| SafeWrite.WriteAll | ind.c:27-48 | the destination receives a prefix of `buf`; a non-negative return equals the bytes delivered, at most `len`; a negative return means some bytes were not delivered; `len == 0` returns 0 without calling `write` |
| SafeWrite.SafeWriteLoop | ind.c:27-48 | the loop with invariants `offset + len ==` the original length and "sent `== buf[..offset]`" computes `WriteAll`; a negative return is exactly what the last `write` returned; a short non-negative return happens only when the last `write` returned 0 |
| SafeWrite.ReliableFrom | ind.c:33-45 | if no `write` returns 0 or less, the loop resumed anywhere delivers the whole buffer and returns its length |
| SafeWrite.ReliableWriteAll | ind.c:27-48 | if no `write` returns 0 or less, `safe_write` returns `len` and delivers `buf` in order |
| SafeWrite.NoStallFrom | ind.c:38-45 | if no `write` returns 0, a non-negative return from the resumed loop means the whole buffer was delivered |
| SafeWrite.NoStallWriteAll | ind.c:38-45 | if no `write` returns 0, a non-negative return from `safe_write` means all of `buf` was delivered |
| SafeWrite.WriteEach | ind.c:107-120 | the chain of `safe_write` calls `process` makes for a line stops at the first negative return; the count of completed calls equals the number of parts exactly when none failed |
| SafeWrite.ReliableWriteEach | ind.c:107-120 | with no failing or stalling `write`, the chain delivers the parts concatenated in order and does not fail |
| SafeWrite.NoStallWriteEach | ind.c:107-120 | with no stalling `write`, the chain delivers a prefix of the concatenated parts, and all of them when none failed |
| LineEngine.Scan | ind.c:105-129 | the `memchr` loop and the tail write leave the flag set exactly when the chunk held a '\n' or the flag was already set; a chunk without '\n' is written unchanged |
| LineEngine.OneLine | ind.c:105-131 | a read holding exactly one complete line writes the prefix (if the flag is set), the line, the postfix and '\n', and leaves the flag set |
| LineEngine.Process | ind.c:89-132 | a 0-byte read returns 1, writes nothing and keeps the flag; a negative read returns 0, writes nothing and keeps the flag; a chunk returns 0; a chunk without '\n' is written unchanged and keeps the flag; a chunk with a '\n' leaves the flag set |
| LineEngine.SplitLines | ind.c:105-124 | every chunk is its complete lines, each followed by '\n', and then a tail without '\n'; there are as many lines as newlines |
| LineEngine.ScanRendersLines | ind.c:105-129 | the scan of lines plus a tail writes, for each line in order, the prefix (if the flag is set, and for later lines always), the line, the postfix and '\n', then the bare tail; the flag ends set if there was a line, unchanged otherwise |
| LineEngine.ScanIsRender | ind.c:105-129 | the output for any chunk is that line-by-line rendering of its own lines and tail |
| LineEngine.ScanFlag | ind.c:105-129 | after a chunk the flag is set if the chunk held a '\n', and unchanged otherwise |
| LineEngine.RenderIdentity | ind.c:105-129 | with empty prefix and postfix, the rendering of lines and a tail is the lines with their newlines followed by the tail |
| LineEngine.ScanIdentity | ind.c:105-129 | with empty prefix and postfix, `process` writes its chunk unchanged |
| LineEngine.RenderLength | ind.c:106-129 | rendered length is the input bytes, one postfix per line, and one prefix per line except the first when the flag was clear |
| LineEngine.ScanLength | ind.c:106-129 | output length is the chunk length, plus one postfix per '\n', plus one prefix per '\n' except the first when the flag was clear: each line gets at most one prefix |
| LineEngine.RenderEndsWithTail | ind.c:125-129 | the rendering ends with the tail, unchanged |
| LineEngine.ScanEndsWithTail | ind.c:125-129 | the bytes after the last '\n' end the output verbatim, with no prefix or postfix |
| LineEngine.JoinAppend | ind.c:105-124 | the bytes of two runs of complete lines are the concatenation of each run's bytes |
| LineEngine.RenderAppend | ind.c:105-124 | rendering a run of lines followed by more lines is the first run's lines, then the rest rendered from a set flag |
| LineEngine.EndsWithNewlineNoTail | ind.c:125 | a chunk that ends in '\n' has an empty tail and at least one line |
| LineEngine.LinesAppend | ind.c:105 | two runs of complete lines together are still complete lines |
| LineEngine.ScanAppendLines | ind.c:105-129 | scanning lines followed by more input is the lines' output, then the scan of the rest from a set flag |
| LineEngine.ScanAppendAfterNewline | ind.c:105-129 | scanning two blocks, the first ending in '\n', is scanning each, the second from a set flag |
| LineEngine.Feed | ind.c:210-211 | successive `process` calls on one descriptor leave the flag set exactly when some read so far held a '\n' or it started set |
| LineEngine.FeedIdentity | ind.c:89-132 | with empty prefix and postfix, successive calls copy the stream unchanged however it is split into reads |
| LineEngine.FeedLineAligned | ind.c:105-129 | when every read ends on a '\n', successive calls write what one read of the whole stream would |
| LineEngine.SplitReadMovesPrefix | ind.c:106-129 | "a" then "\n" with prefix ">" writes "a>\n", while "a\n" in one read writes ">a\n" |
| LineEngine.TailGetsNoPrefix | ind.c:125-129 | "a\nb" with prefix "# " writes "# a\nb", returns 0 and leaves the flag set |
| Relay.ProcessWith | ind.c:89-132 | with writes going through `safe_write`: end-of-file returns 1 and a failed read returns 0, both without writing or touching the flag |
| Relay.ScanWith | ind.c:105-129 | the scan with real writes never moves the `write` call index backwards, and when no write failed it leaves the flag set exactly when the chunk held a '\n' or the flag was already set |
| Relay.LinePartsConcat | ind.c:106-121 | the writes for one line spell out prefix-if-flagged, line, postfix, newline |
| Relay.ReliableLines | ind.c:105-129 | with a destination where no `write` returns 0 or less, the scan writes exactly the pure engine's output and flag, and does not fail |
| Relay.ReliableLine | ind.c:105-129 | the same for one complete line followed by the rest |
| Relay.ReliableProcess | ind.c:89-132 | with no failing or stalling `write`, `process` writes what the pure engine describes, with the same flag and return value |
| Relay.NoStallLines | ind.c:105-129 | with no stalling `write`, the scan writes a prefix of the pure output, and all of it with the same flag when nothing failed |
| Relay.NoStallLine | ind.c:105-129 | the same for one complete line followed by the rest |
| Relay.NoStallProcess | ind.c:89-132 | with no stalling `write`, `process` writes a prefix of the pure output, and the whole of it when it returns 0 |
| Relay.StalledWriteEach | ind.c:38-42 | if every `write` returns 0, a chain of `safe_write` calls delivers nothing and none of them fails |
| Relay.StalledLines | ind.c:105-129 | if every `write` returns 0, the scan delivers nothing and does not fail |
| Relay.StalledSinkDropsSilently | ind.c:89-132 | if every `write` returns 0, `process` on a chunk or a failed read delivers nothing yet returns 0 |
| Relay.BrokenWriteAll | ind.c:33-39 | if every non-empty `write` fails, `safe_write` delivers nothing, and it returns a negative value exactly when `len > 0` |
| Relay.BrokenWriteEach | ind.c:107-120 | if every non-empty `write` fails, a chain whose last part is non-empty delivers nothing and fails |
| Relay.BrokenSinkCloses | ind.c:89-132 | if every non-empty `write` fails, any chunk makes `process` return 1 having delivered nothing |
| Relay.BrokenWriteEachFirst | ind.c:107-111 | if every non-empty `write` fails, the first `safe_write` of a line's chain fails exactly when its part is non-empty |
| Relay.BrokenSinkFlag | ind.c:105-129 | if every non-empty `write` fails, a chunk with a '\n' leaves the flag set exactly when it was set and the prefix is non-empty (the prefix write failed before the flag was cleared); a chunk without one leaves the flag alone |
| Supervisor.Start | ind.c:151-153 | the loop starts with both descriptors live, both `emptyline` flags set, nothing written and `nclosed == 0` |
| Supervisor.Service | ind.c:210-223 | a descriptor already set to -1 is not read and its channel does not change; a live one's output only grows; a retired channel never comes back |
| Supervisor.ServiceRelaying | ind.c:210-223 | with `process` as the step, end-of-file retires a live channel without writing or touching its flag, and a failed read changes nothing |
| Supervisor.Iterate | ind.c:205-223 | one pass serves each live descriptor once, stdout then stderr, with its own reads and step, and leaves retired ones alone; `nclosed` counts exactly the retired descriptors, never decreases and stays at most 2 |
| Supervisor.Run | ind.c:203-226 | the loop keeps `nclosed` equal to the number of retired descriptors, at most 2; it exits with `nclosed > 1` exactly when both are retired; it stops early only when, at the top of a pass, a live descriptor has no read left |
| Supervisor.Drain | ind.c:210-214 | a channel's history of `process` calls only appends to its output, and a channel closed at the start stays closed |
| Supervisor.DrainRetired | ind.c:210-219 | a descriptor set to -1 is never passed to `process` again: no sequence of reads changes its channel |
| Supervisor.RunProjects | ind.c:203-226 | each channel ends exactly as its own reads, in order, would leave it alone: the interleaving with the other stream makes no difference |
| Supervisor.RelayingClosesAtEof | ind.c:97-99 | `process` returns 1 at end-of-file, whatever the destination does |
| Supervisor.RunReachesDone | ind.c:203-226 | if each live descriptor's reads contain an end-of-file and the step returns 1 there, the loop exits with both retired |
| Supervisor.SuperviseEnds | ind.c:203-226 | `ind`'s loop, started as in `main`, exits with both descriptors retired once both streams reach end-of-file |
| Supervisor.ReliableDrain | ind.c:210-214 | with a destination that takes every write, a live channel fed reads other than end-of-file stays live, and its output is the pure engine's output over its chunks; failed reads add nothing |
| Supervisor.TransparentWithoutDecoration | ind.c:210-214 | with empty prefix and postfix and a destination that takes every write, the relayed stream is the child's output byte for byte |
| Supervisor.Supervise | ind.c:203-226 | the loop started as in `main` ends with `nclosed` counting the retired descriptors; `nclosed > 1` exactly when both are retired; otherwise a live descriptor has used up its reads |
| Supervisor.EofEnds | ind.c:203-226 | with both descriptors live and only end-of-file left on each, one pass retires both, the loop exits and nothing more is written |
| Supervisor.OneLineEach | ind.c:203-226 | each stream sending one complete line and then end-of-file, over writers that take everything, comes out as its prefix, the line, its postfix and '\n', and the loop exits |
| Supervisor.DefaultsExample | ind.c:143-146 | with the default prefixes, "a\n" on stdout and "e\n" on stderr come out as "  a\n" and ">>e\n" |
| Supervisor.SuperviseReliable | ind.c:203-226 | end to end, with destinations that take every write and streams without end-of-file, each destination receives its own stream decorated by the pure engine from a fresh line, however the streams interleave |

## Left out

- `format` (ind.c:76-84) is not modelled. Its `snprintf(` call is never closed, and `main` hands it uninitialised `char *` variables (ind.c:204-209). The model passes the configured prefix and postfix strings to `process` directly, as evidently intended.
- Option parsing, `usage`, `child`, `pipe`, `fork`, `close`, `dup2`, `execv` and the error messages in `main` (ind.c:53-71, 155-201) are process plumbing. The loop starts after them, from `Supervisor.Start`.
- The other source files (pseudo-terminal allocation, socket pairs, portability wrappers, and the diagnostic test programs) are not part of this model. They only sequence system calls.
- The `EINTR` retry of `TEMP_FAILURE_RETRY` is folded into the writer's answer for each call. The bytes read are given to the model as values, not read from a descriptor.
- The real descriptors are modelled as an `open` flag per channel. Blocking is not modelled. When a live descriptor has no read left at the top of a pass, the loop stops there, so the final state is the state at the start of the pass that would block. For example, if stdout has one read and stderr none, the first pass does not happen and `usedOut` is 0.
- `exit(0)` at the end of `main` is not modelled, and neither is the missing wait for the child.
- SafeWrite.SafeWriteLoop: `offset` and `ret` are `int` and `len` is `size_t` in the source. The model uses unbounded integers, which matches the source for every length `process` passes (the buffer is 128 bytes, and prefixes are C strings).
- SafeWrite.WriteAll: a `write` that reports more bytes than it was asked for is excluded (`Honest`), because POSIX rules it out. In the source it would make `len` wrap around.
- Relay.NoStallProcess: a destination whose `write` returns 0 for some calls and not for others is not characterised. Each 0 drops the rest of one `safe_write`, so the output is then only a subsequence of the pure output.
- Supervisor.SuperviseReliable: stated only for streams with no end-of-file among the reads used. After end-of-file a channel is retired and takes no more reads (`Supervisor.DrainRetired`).
