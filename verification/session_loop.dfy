/**
 * The session handler written as the loop it is: greet, then read, answer and
 * keep chunk after chunk until end of stream or a failure, then echo.
 */
module SessionLoop {
  import opened Bytes
  import opened Session

  /** One session, read by read: `data` holds the chunks read so far, in
      order, and `k` numbers the next write. It does exactly what Run says. */
  method Handle(user: seq<byte>, rs: seq<ReadResult>, ws: seq<bool>) returns (t: Transcript)
    ensures t == Run(user, rs, ws)
  {
    var writes := [Greeting(user)];
    var data: seq<byte> := [];
    var k := 1;
    var i := 0;
    var eof := false;
    while i < |rs|
      invariant 0 <= i <= |rs|
      invariant k == i + 1 && |writes| == k
      invariant !eof
      invariant var rest := Continue(rs[i..], ws, k, data);
                Run(user, rs, ws) == Transcript(writes + rest.writes, rest.status, rest.buffer)
    {
      var r := rs[i];
      if r.ChunkWithEof? {
        ghost var before := writes;
        writes := writes + [DoneReading];
        if !WriteOk(ws, k) {
          return Transcript(writes, DoneFailed, data);
        }
        assert writes + [Echo(data)] == before + [DoneReading, Echo(data)];
        eof := true;
        break;
      }
      if r.ReadError? {
        return Transcript(writes, ReadFailed, data);
      }
      writes := writes + [Got(|r.data|)];
      if !WriteOk(ws, k) {
        return Transcript(writes, AckFailed, data);
      }
      assert rs[i..][1..] == rs[i + 1..];
      data := data + r.data;
      k := k + 1;
      i := i + 1;
    }
    if !eof {
      return Transcript(writes, Waiting, data);
    }
    writes := writes + [Echo(data)];
    if !WriteOk(ws, k + 1) {
      return Transcript(writes, EchoFailed, data);
    }
    return Transcript(writes, Completed, data);
  }
}
