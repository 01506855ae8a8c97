# SSH data-streaming server: session handler and key check

This project models the two callbacks that make up the server in `main.go`,
and proves properties of them.

- **The session handler** (`main.go:16-50`) does the following, in order:
  - greets the user;
  - reads the session into a 1024-byte buffer;
  - answers every chunk with `got N bytes` and appends the chunk to a buffer;
  - at `io.EOF`, writes `done reading` and a blank line;
  - echoes everything it kept.

  A failed greeting is only logged. Any other failed write, or a read error,
  ends the session.
- **The public-key callback** (`main.go:52-88`) reads `./.authorized_keys`
  line by line. It grants access on the first non-empty line whose key parses
  and equals the incoming key. It refuses when the file cannot be opened, when
  a read fails, or when no line matches.

## How the model is built

The socket is not modelled. The handler becomes a pure function,
`Session.Run(user, reads, writeOutcomes)`:

- **Reads.** Each result of `s.Read` is a `ReadResult`:
  - a plain chunk;
  - bytes together with `io.EOF`;
  - bytes together with another error.
- **Write outcomes.** `writeOutcomes[k]` says whether write number `k`
  succeeds. The greeting is write 0. Writes beyond the given outcomes succeed.
- **Result.** Run returns a `Transcript`, made of:
  - the messages the handler attempted to write, in order;
  - why it stopped (`Status`);
  - the data it kept.

  When the reads run out before `io.EOF` or an error, the status is `Waiting`:
  the handler is still blocked in `Read`.

`SessionLoop.Handle` is the same handler written as the loop in the source. It
is proved equal to `Run`.

`SessionSpec.Expected` is an independent description of the same transcript.
It is built from two separate scans:

- how many reads, from the front, are plain chunks (`LeadingChunks`);
- which write fails first (`FirstFailedWrite`).

`SessionSpec.RunIsExpected` proves that the handler and this description agree
on every input. Several of the properties in `SessionProps` are derived from
that; the others are proved by induction on `Continue`.

Bytes are `Bytes.byte` (0 to 255). The `%d` in `got %d bytes` is
`Bytes.Decimal`. `Bytes.ParseDecimal` is its inverse. Together they make the
acknowledgement lines readable back (`Session.ParseAck`).

The key callback is `KeyAuth.Authorize(file, incoming, parse, keysEqual)`:

- `file` is `None` when the file cannot be opened. Otherwise it is the sequence
  of `ReadLine` results: a line, or a read error. The end of the sequence is
  `io.EOF`.
- `ssh.ParseAuthorizedKey` and `server.KeysEqual` are library calls. They are
  the parameters `parse` and `keysEqual`.

`KeyAuth.CheckKey` is the same callback written as the loop in the source.

Two behaviours of the source are modelled as written:

- **Bytes that arrive with `io.EOF`, or with a read error, are dropped.** The
  handler tests the error before using `n`, so those bytes are neither
  acknowledged nor kept. `SessionProps.TerminalPayloadDropped` states this.
- **A chunk of zero bytes without an error is acknowledged** with `got 0 bytes`.

## Model

| member | source | states |
|---|---|---|
| `Session.Run` | main.go:16-23 | the greeting `user: <name> connected` is always the first write of a session |
| `Session.Continue` | main.go:24-49 | the kept data only grows, and the read loop attempts at most one write more than it has reads |
| `SessionLoop.Handle` | main.go:16-50 | the handler loop computes exactly the transcript Run gives, for every sequence of reads and write outcomes |
| `SessionSpec.RunIsExpected` | main.go:16-50 | the handler's transcript equals the one built independently from two scans: the leading plain chunks of the reads, and the first failed write |
| `SessionSpec.ContinueIsExpected` | main.go:24-49 | the read loop entered at any write number, with any data kept so far, agrees with the independent description |
| `SessionSpec.LeadingChunksSpec` | main.go:25-43 | the count of leading chunks covers only plain chunks, and the read after them, if any, is io.EOF or an error |
| `SessionSpec.FirstFailedWriteSpec` | main.go:38-42 | the first failed write found is one that fails, and every write before it succeeds; when none is found, no write fails |
| `SessionSpec.ExpectedWritesShape` | main.go:24-45 | the loop's writes are the attempted `got` lines in read order, then at most `done reading` and then the echo of the kept data, the echo last and only when the session reached io.EOF and the closing line was written |
| `SessionSpec.AcknowledgedAll` | main.go:38-43 | every leading chunk is acknowledged exactly when none of their `got` writes fails |
| `SessionProps.GreetingDoesNotGate` | main.go:20-23 | a failed greeting changes nothing else in the session: reading proceeds as if it had succeeded |
| `SessionProps.AcksFollowReads` | main.go:24-43 | after the greeting come one `got` line per plain chunk, in read order, each with that chunk's size, up to and including the first whose write fails; no `got` line comes later |
| `SessionProps.AcksWithinBuffer` | main.go:18-38 | no `got` line reports more than 1024 bytes, the size of the read buffer |
| `SessionProps.BufferIsAcknowledgedChunks` | main.go:38-43 | the kept data is the in-order concatenation of exactly the chunks whose `got` line was written, all of them plain chunks |
| `SessionProps.TerminalPayloadDropped` | main.go:25-37 | the bytes returned together with io.EOF or a read error have no effect on the session: replacing them leaves the transcript unchanged |
| `SessionProps.LaterReadsIgnored` | main.go:26-41 | once the session has stopped, whatever the peer would have sent afterwards changes nothing |
| `SessionProps.ContinueCompleted` | main.go:24-49 | the read loop completes exactly when the reads reach io.EOF after plain chunks only and none of the loop's writes fails |
| `SessionProps.CompletedExactly` | main.go:20-49 | a session completes exactly when the reads reach io.EOF after plain chunks only and every write after the greeting succeeds |
| `SessionProps.CompletedTranscript` | main.go:20-45 | a completed session wrote the greeting, one `got` line per chunk, `done reading`, and the echo of all chunks concatenated once, which is also the data kept |
| `SessionProps.EchoOnlyAfterEof` | main.go:26-49 | the echo is written at most once, as the last write and right after `done reading`, only on io.EOF and only when every `got` line and the closing line were written; it carries exactly the kept data |
| `SessionProps.CleanSessionBytes` | main.go:20-45 | when the reads reach io.EOF after plain chunks only and no write fails, the peer receives the greeting line, the `got` lines, `done reading` and a blank line, then the chunks' bytes in read order |
| `SessionProps.AckLineRoundTrip` | main.go:38 | the count can be read back from a `got` line: reading it gives `n` exactly when the line is the one written for `n` |
| `Bytes.DecimalRoundTrip` | main.go:38 | parsing the decimal rendering of a count gives back the count |
| `Bytes.ParseDecimalRoundTrip` | main.go:38 | a digit string parses to `n` exactly when it is the decimal rendering of `n`, so the rendering is the only spelling accepted |
| `KeyAuth.FirstGrant` | main.go:67-85 | the scan stops at the first line it reaches that grants access, every earlier line does not grant it, and no position is found when no reachable line grants it |
| `KeyAuth.Authorize` | main.go:52-88 | access is refused when the file cannot be opened, and otherwise granted exactly when some line before the first read error is non-empty, parses, and holds the incoming key |
| `KeyAuth.CheckKey` | main.go:52-88 | the callback loop grants access exactly when the file opened and some line it reaches grants it |
| `KeyAuth.NonGrantingLineIrrelevant` | main.go:73-79 | removing an empty line, an unparsable line, or a line with another key does not change the decision |
| `KeyAuth.LinesAfterErrorIgnored` | main.go:67-71 | the lines after the first read error never matter, even one holding the incoming key |

## Left out

- `server.Handle`, `server.ListenAndServe` and port 2222 only register the two callbacks and run the network server. They are not modelled.
- Socket I/O is not modelled. The results of the session's reads and the outcomes of its writes are inputs.
- A failed write is modelled as delivering nothing. A partial write before an error is not modelled.
- Logging (`log.Printf`, `log.Println`, `log.Fatal`) has no effect on behaviour and is not modelled. This includes `ssh.MarshalAuthorizedKey`, which is only used for a log line.
- `os.Open` and the buffered `ReadLine` are not modelled. The file is given as `None` (open failed) or as the sequence of ReadLine results. A line longer than the reader's buffer arrives as several results, one per fragment, and the model treats each fragment as a line, as the code does.
- `ssh.ParseAuthorizedKey` and `server.KeysEqual` are library calls outside this code. They are uninterpreted parameters.
- The deferred `keys.Close()` and `errors.Join` are not modelled. Their result is never seen by the caller.
- Concurrency is not modelled: sessions run in separate goroutines but share no state, so each is modelled on its own.
- `Session.Run`: only its greeting guarantee is stated on the function itself. The rest of its behaviour is stated by the `SessionSpec` and `SessionProps` lemmas.
- `Session.Continue`: its own contract states only that the kept data grows and that the loop attempts at most one write more than it has reads. Which read leads to the closing line and the echo, and the full transcript, are stated by `SessionSpec.ContinueIsExpected`.
