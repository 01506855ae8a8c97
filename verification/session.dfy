/**
 * The per-session handler of the SSH server. It greets the user, reads the
 * session into a fixed buffer of BufSize bytes, answers each chunk with a
 * `got N bytes` line and keeps the chunk, and at end of stream writes a
 * closing line and echoes everything it kept.
 *
 * The socket is not modelled. The results of successive Read calls and the
 * outcomes of successive writes are inputs instead. The handler is then a
 * pure function, Run, from those inputs to the Transcript of what it did.
 */
module Session {
  import opened Wrappers
  import opened Bytes

  /** Capacity of the buffer the handler reads into. */
  const BufSize: nat := 1024

  /** The result of one call of the session's Read. Go's readers may return
      bytes together with an error, so every result carries the bytes read. */
  datatype ReadResult =
    | Chunk(data: seq<byte>)         // no error
    | ChunkWithEof(data: seq<byte>)  // the error is io.EOF
    | ReadError(data: seq<byte>)     // any other error

  /** A reader never returns more bytes than the buffer it was given. */
  predicate ValidReads(rs: seq<ReadResult>)
  {
    forall i :: 0 <= i < |rs| ==> |rs[i].data| <= BufSize
  }

  /** One write the handler issues to the session. */
  datatype Msg =
    | Greeting(user: seq<byte>)   // `user: <name> connected\n`
    | Got(n: nat)                 // `got <n> bytes\n`
    | DoneReading                 // `done reading\n\n`
    | Echo(bytes: seq<byte>)      // the kept data, verbatim

  /** Why the handler stopped, or that it has not. */
  datatype Status =
    | Waiting     // every read given was a plain chunk; the handler waits in Read
    | Completed   // end of stream, closing line and echo written
    | ReadFailed  // Read returned an error other than io.EOF
    | AckFailed   // a `got` line could not be written
    | DoneFailed  // the closing line could not be written
    | EchoFailed  // the echo could not be written

  /** The writes the handler attempted, in order, how it ended, and the data it kept. */
  datatype Transcript = Transcript(writes: seq<Msg>, status: Status, buffer: seq<byte>)

  /** Outcome of the handler's write number `k` (the greeting is write 0).
      Writes beyond the outcomes given succeed. */
  predicate WriteOk(ws: seq<bool>, k: nat)
  {
    k >= |ws| || ws[k]
  }

  /** Every write numbered from `lo` up to, but not including, `hi` succeeds. */
  predicate WritesSucceed(ws: seq<bool>, lo: nat, hi: nat)
  {
    forall i :: lo <= i < hi ==> WriteOk(ws, i)
  }

  /** The read loop, entered with write number `k` next and `buffer` kept so
      far. Kept data is only ever appended to, and every read leads to at most
      one write, except the io.EOF read, which leads to two. */
  function Continue(rs: seq<ReadResult>, ws: seq<bool>, k: nat, buffer: seq<byte>): (r: Transcript)
    ensures buffer <= r.buffer
    ensures |r.writes| <= |rs| + 1
    decreases |rs|
  {
    if |rs| == 0 then Transcript([], Waiting, buffer)
    else match rs[0]
      case ChunkWithEof(_) =>
        if !WriteOk(ws, k) then Transcript([DoneReading], DoneFailed, buffer)
        else Transcript([DoneReading, Echo(buffer)],
                        if WriteOk(ws, k + 1) then Completed else EchoFailed,
                        buffer)
      case ReadError(_) => Transcript([], ReadFailed, buffer)
      case Chunk(b) =>
        if !WriteOk(ws, k) then Transcript([Got(|b|)], AckFailed, buffer)
        else
          var rest := Continue(rs[1..], ws, k + 1, buffer + b);
          Transcript([Got(|b|)] + rest.writes, rest.status, rest.buffer)
  }

  /** One session: the greeting, whose failure is only logged, then the read loop. */
  function Run(user: seq<byte>, rs: seq<ReadResult>, ws: seq<bool>): (t: Transcript)
    ensures |t.writes| > 0 && t.writes[0] == Greeting(user)
  {
    var rest := Continue(rs, ws, 1, []);
    Transcript([Greeting(user)] + rest.writes, rest.status, rest.buffer)
  }

  const DoneLine: seq<byte> := Ascii("done reading\n\n")

  function GreetingLine(user: seq<byte>): seq<byte>
  {
    Ascii("user: ") + user + Ascii(" connected\n")
  }

  const AckPrefix: seq<byte> := Ascii("got ")
  const AckSuffix: seq<byte> := Ascii(" bytes\n")

  function AckLine(n: nat): seq<byte>
  {
    AckPrefix + Decimal(n) + AckSuffix
  }

  /** Reads back the count from an acknowledgement line, as the session's peer would. */
  function ParseAck(line: seq<byte>): Option<nat>
  {
    if |line| >= |AckPrefix| + |AckSuffix|
       && line[..|AckPrefix|] == AckPrefix
       && line[|line| - |AckSuffix|..] == AckSuffix
    then ParseDecimal(line[|AckPrefix|..|line| - |AckSuffix|])
    else None
  }

  /** The bytes of one write. */
  function Render(m: Msg): seq<byte>
  {
    match m
    case Greeting(user) => GreetingLine(user)
    case Got(n) => AckLine(n)
    case DoneReading => DoneLine
    case Echo(bytes) => bytes
  }

  /** What the session's peer receives: the bytes of every write that succeeded, in order. */
  function Received(writes: seq<Msg>, ws: seq<bool>): seq<byte>
  {
    Flatten(seq(|writes|, k requires 0 <= k < |writes| =>
      if WriteOk(ws, k) then Render(writes[k]) else []))
  }
}
