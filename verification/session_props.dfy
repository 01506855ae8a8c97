/**
 * Properties of the session handler: the greeting, the acknowledgements, the
 * kept data, the bytes that arrive with an error, the echo, and what the
 * peer receives on a clean run.
 */
module SessionProps {
  import opened Wrappers
  import opened Bytes
  import opened Session
  import opened SessionSpec

  /** The acknowledgement lines for a run of reads. */
  function AckLines(rs: seq<ReadResult>): seq<seq<byte>>
  {
    seq(|rs|, j requires 0 <= j < |rs| => AckLine(|rs[j].data|))
  }

  lemma {:induction false} ContinueIgnoresEarlierWrites(rs: seq<ReadResult>, ws: seq<bool>, ws': seq<bool>, k: nat, buffer: seq<byte>)
    requires |ws| == |ws'|
    requires forall i :: k <= i < |ws| ==> ws[i] == ws'[i]
    ensures Continue(rs, ws, k, buffer) == Continue(rs, ws', k, buffer)
    decreases |rs|
  {
    if |rs| > 0 && rs[0].Chunk? && WriteOk(ws, k) {
      ContinueIgnoresEarlierWrites(rs[1..], ws, ws', k + 1, buffer + rs[0].data);
    }
  }

  /** The greeting is always the first write, and whether it succeeds changes
      nothing else: a failed greeting is only logged and reading proceeds. */
  lemma GreetingDoesNotGate(user: seq<byte>, rs: seq<ReadResult>, ws: seq<bool>, ok: bool)
    requires |ws| > 0
    ensures Run(user, rs, ws).writes[0] == Greeting(user)
    ensures Run(user, rs, ws[0 := ok]) == Run(user, rs, ws)
  {
    ContinueIgnoresEarlierWrites(rs, ws, ws[0 := ok], 1, []);
  }

  /** After the greeting come the `got` lines, one per plain chunk in read
      order, each giving that chunk's size; no `got` line follows them. They
      stop at the first whose write fails. */
  lemma AcksFollowReads(user: seq<byte>, rs: seq<ReadResult>, ws: seq<bool>)
    ensures var t, c := Run(user, rs, ws), AckAttempts(rs, ws, 1);
            && c <= LeadingChunks(rs)
            && c + 1 <= |t.writes|
            && (forall i :: 1 <= i <= c ==> rs[i - 1].Chunk? && t.writes[i] == Got(|rs[i - 1].data|))
            && (forall i :: c + 1 <= i < |t.writes| ==> !t.writes[i].Got?)
  {
    RunParts(user, rs, ws);
    LeadingChunksSpec(rs);
    var kept := Kept(rs, ws, 1, []);
    ExpectedWritesShape(rs, ws, 1, kept);
    var t, c := Run(user, rs, ws), AckAttempts(rs, ws, 1);
    var w := ExpectedWrites(rs, ws, 1, kept);
    assert t.writes == [Greeting(user)] + w;
    assert forall i :: 1 <= i < |t.writes| ==> t.writes[i] == w[i - 1];
  }

  /** A `got` line never reports more than BufSize bytes, since no read
      returns more than the buffer holds. */
  lemma AcksWithinBuffer(user: seq<byte>, rs: seq<ReadResult>, ws: seq<bool>)
    requires ValidReads(rs)
    ensures var t := Run(user, rs, ws);
            forall i :: 0 <= i < |t.writes| && t.writes[i].Got? ==> t.writes[i].n <= BufSize
  {
    AcksFollowReads(user, rs, ws);
  }

  /** The data kept is the in-order concatenation of exactly the chunks whose
      `got` line was written: plain chunks only, up to the first failed write. */
  lemma BufferIsAcknowledgedChunks(user: seq<byte>, rs: seq<ReadResult>, ws: seq<bool>)
    ensures var m := Acknowledged(rs, ws, 1);
            && m <= LeadingChunks(rs)
            && (forall j :: 0 <= j < m ==> rs[j].Chunk? && WriteOk(ws, j + 1))
            && Run(user, rs, ws).buffer == Flatten(Payloads(rs[..m]))
  {
    RunParts(user, rs, ws);
    LeadingChunksSpec(rs);
    FirstFailedWriteSpec(ws, 1);
    var m := Acknowledged(rs, ws, 1);
    assert WritesSucceed(ws, 1, 1 + m);
  }

  lemma {:induction false} ContinueIgnoresTerminalPayload(rs: seq<ReadResult>, ws: seq<bool>, k: nat, buffer: seq<byte>, b: seq<byte>)
    requires LeadingChunks(rs) < |rs|
    ensures var i := LeadingChunks(rs);
            Continue(rs[i := rs[i].(data := b)], ws, k, buffer) == Continue(rs, ws, k, buffer)
    decreases |rs|
  {
    var i := LeadingChunks(rs);
    var rs' := rs[i := rs[i].(data := b)];
    if i > 0 {
      assert rs'[1..] == rs[1..][i - 1 := rs[i].(data := b)];
      ContinueIgnoresTerminalPayload(rs[1..], ws, k + 1, buffer + rs[0].data, b);
    }
  }

  /** Bytes returned together with io.EOF, or with any other read error, are
      neither acknowledged nor kept nor echoed: the transcript is the same
      whatever those bytes are. */
  lemma TerminalPayloadDropped(user: seq<byte>, rs: seq<ReadResult>, ws: seq<bool>, b: seq<byte>)
    requires LeadingChunks(rs) < |rs|
    ensures var i := LeadingChunks(rs);
            Run(user, rs[i := rs[i].(data := b)], ws) == Run(user, rs, ws)
  {
    ContinueIgnoresTerminalPayload(rs, ws, 1, [], b);
  }

  lemma {:induction false} ContinueStops(rs: seq<ReadResult>, more: seq<ReadResult>, ws: seq<bool>, k: nat, buffer: seq<byte>)
    requires Continue(rs, ws, k, buffer).status != Waiting
    ensures Continue(rs + more, ws, k, buffer) == Continue(rs, ws, k, buffer)
    decreases |rs|
  {
    assert (rs + more)[0] == rs[0];
    if rs[0].Chunk? && WriteOk(ws, k) {
      assert (rs + more)[1..] == rs[1..] + more;
      ContinueStops(rs[1..], more, ws, k + 1, buffer + rs[0].data);
    }
  }

  /** Once the handler has stopped, for whatever reason, it reads no further:
      later reads change nothing. */
  lemma LaterReadsIgnored(user: seq<byte>, rs: seq<ReadResult>, more: seq<ReadResult>, ws: seq<bool>)
    requires Run(user, rs, ws).status != Waiting
    ensures Run(user, rs + more, ws) == Run(user, rs, ws)
  {
    ContinueStops(rs, more, ws, 1, []);
  }

  lemma {:induction false} ContinueCompleted(rs: seq<ReadResult>, ws: seq<bool>, k: nat, buffer: seq<byte>)
    ensures var n := LeadingChunks(rs);
            Continue(rs, ws, k, buffer).status == Completed <==>
              n < |rs| && rs[n].ChunkWithEof? && WritesSucceed(ws, k, k + n + 2)
    decreases |rs|
  {
    if |rs| > 0 && rs[0].Chunk? {
      var n := LeadingChunks(rs);
      ContinueCompleted(rs[1..], ws, k + 1, buffer + rs[0].data);
      assert n < |rs| ==> rs[n] == rs[1..][n - 1];
      if WriteOk(ws, k) && WritesSucceed(ws, k + 1, k + n + 2) {
        assert WritesSucceed(ws, k, k + n + 2);
      }
      if !WriteOk(ws, k) {
        assert !WritesSucceed(ws, k, k + n + 2);
      }
    } else if |rs| > 0 && rs[0].ChunkWithEof? && WriteOk(ws, k) && WriteOk(ws, k + 1) {
      forall i | k <= i < k + 2
        ensures WriteOk(ws, i)
      {
        assert i == k || i == k + 1;
      }
    }
  }

  /** A session completes exactly when the reads reach io.EOF after plain
      chunks only and every write after the greeting succeeds. */
  lemma CompletedExactly(user: seq<byte>, rs: seq<ReadResult>, ws: seq<bool>)
    ensures var n := LeadingChunks(rs);
            Run(user, rs, ws).status == Completed <==>
              n < |rs| && rs[n].ChunkWithEof? && WritesSucceed(ws, 1, n + 3)
  {
    var n := LeadingChunks(rs);
    assert 1 + n + 2 == n + 3;
    ContinueCompleted(rs, ws, 1, []);
  }

  /** The sufficient direction of CompletedExactly, on its own so that callers
      with quantified facts about the write outcomes in scope stay cheap. */
  lemma CleanEofCompletes(user: seq<byte>, rs: seq<ReadResult>, ws: seq<bool>)
    requires LeadingChunks(rs) < |rs| && rs[LeadingChunks(rs)].ChunkWithEof?
    requires WritesSucceed(ws, 1, LeadingChunks(rs) + 3)
    ensures Run(user, rs, ws).status == Completed
  {
    var n := LeadingChunks(rs);
    assert 1 + n + 2 == n + 3;
    ContinueCompleted(rs, ws, 1, []);
  }

  /** A completed session writes the greeting, the `got` lines in read order,
      the closing line, and then the concatenated chunks, once. */
  lemma CompletedTranscript(user: seq<byte>, rs: seq<ReadResult>, ws: seq<bool>)
    requires Run(user, rs, ws).status == Completed
    ensures var n := LeadingChunks(rs);
            var kept := Flatten(Payloads(rs[..n]));
            Run(user, rs, ws)
            == Transcript([Greeting(user)] + Acks(rs[..n]) + [DoneReading, Echo(kept)], Completed, kept)
  {
    RunParts(user, rs, ws);
    var n := LeadingChunks(rs);
    assert Acknowledged(rs, ws, 1) == n;
    var kept := Kept(rs, ws, 1, []);
    assert kept == Flatten(Payloads(rs[..n]));
    assert ExpectedWrites(rs, ws, 1, kept) == Acks(rs[..n]) + [DoneReading, Echo(kept)];
    assert [Greeting(user)] + (Acks(rs[..n]) + [DoneReading, Echo(kept)])
        == [Greeting(user)] + Acks(rs[..n]) + [DoneReading, Echo(kept)];
  }

  /** The echo is written at most once, only after the closing line, only as
      the last write, and only when the reads ended with io.EOF and the closing
      line was written; it carries exactly the kept data. A read error or a
      failed `got` or closing line ends the session with no echo. */
  lemma EchoOnlyAfterEof(user: seq<byte>, rs: seq<ReadResult>, ws: seq<bool>)
    ensures var t := Run(user, rs, ws);
            forall i :: 0 <= i < |t.writes| - 1 ==> !t.writes[i].Echo?
    ensures var t := Run(user, rs, ws);
            t.writes[|t.writes| - 1].Echo? <==> t.status == Completed || t.status == EchoFailed
    ensures var t := Run(user, rs, ws);
            t.writes[|t.writes| - 1].Echo? ==>
              && |t.writes| >= 2
              && t.writes[|t.writes| - 1] == Echo(t.buffer)
              && t.writes[|t.writes| - 2] == DoneReading
              && LeadingChunks(rs) < |rs| && rs[LeadingChunks(rs)].ChunkWithEof?
    ensures var t := Run(user, rs, ws);
            t.writes[|t.writes| - 1].Echo? ==> WritesSucceed(ws, 1, LeadingChunks(rs) + 2)
  {
    RunParts(user, rs, ws);
    LeadingChunksSpec(rs);
    var kept := Kept(rs, ws, 1, []);
    ExpectedWritesShape(rs, ws, 1, kept);
    var t := Run(user, rs, ws);
    var w := ExpectedWrites(rs, ws, 1, kept);
    assert t.writes[1..] == w;
    forall i | 1 <= i < |t.writes|
      ensures t.writes[i] == w[i - 1]
    {
    }
    if t.writes[|t.writes| - 1].Echo? {
      EchoAttemptedWrites(rs, ws, 1);
      assert 1 + LeadingChunks(rs) + 1 == LeadingChunks(rs) + 2;
    }
  }

  /** The bytes of each of a sequence of writes. */
  function RenderAll(ms: seq<Msg>): seq<seq<byte>>
  {
    seq(|ms|, i requires 0 <= i < |ms| => Render(ms[i]))
  }

  lemma ReceivedWhenAllSucceed(writes: seq<Msg>, ws: seq<bool>)
    requires forall i :: 0 <= i < |ws| ==> ws[i]
    ensures Received(writes, ws) == Flatten(RenderAll(writes))
  {
    assert seq(|writes|, k requires 0 <= k < |writes| =>
             if WriteOk(ws, k) then Render(writes[k]) else []) == RenderAll(writes);
  }

  lemma RenderCompleted(user: seq<byte>, acks: seq<ReadResult>, kept: seq<byte>)
    ensures RenderAll([Greeting(user)] + Acks(acks) + [DoneReading, Echo(kept)])
            == [GreetingLine(user)] + AckLines(acks) + [DoneLine, kept]
  {
  }

  lemma FlattenCompleted(greeting: seq<byte>, lines: seq<seq<byte>>, done: seq<byte>, kept: seq<byte>)
    ensures Flatten([greeting] + lines + [done, kept]) == greeting + Flatten(lines) + done + kept
  {
    FlattenAppend([greeting] + lines, [done, kept]);
    FlattenAppend([greeting], lines);
    assert [done, kept][1..] == [kept];
    assert [kept][1..] == [];
    assert Flatten([kept]) == kept;
    assert Flatten([done, kept]) == done + kept;
    assert [greeting][1..] == [];
    assert Flatten([greeting]) == greeting;
  }

  lemma CompletedBytes(user: seq<byte>, acks: seq<ReadResult>, kept: seq<byte>, ws: seq<bool>)
    requires forall i :: 0 <= i < |ws| ==> ws[i]
    ensures Received([Greeting(user)] + Acks(acks) + [DoneReading, Echo(kept)], ws)
            == GreetingLine(user) + Flatten(AckLines(acks)) + DoneLine + kept
  {
    ReceivedWhenAllSucceed([Greeting(user)] + Acks(acks) + [DoneReading, Echo(kept)], ws);
    RenderCompleted(user, acks, kept);
    FlattenCompleted(GreetingLine(user), AckLines(acks), DoneLine, kept);
  }

  /** Without a failed write at all, the peer receives the greeting line, the
      `got` lines, `done reading` and a blank line, and then the chunks'
      bytes in read order, each exactly once. */
  lemma CleanSessionBytes(user: seq<byte>, rs: seq<ReadResult>, ws: seq<bool>)
    requires LeadingChunks(rs) < |rs| && rs[LeadingChunks(rs)].ChunkWithEof?
    requires forall i :: 0 <= i < |ws| ==> ws[i]
    ensures var n := LeadingChunks(rs);
            Received(Run(user, rs, ws).writes, ws)
            == GreetingLine(user) + Flatten(AckLines(rs[..n])) + DoneLine + Flatten(Payloads(rs[..n]))
  {
    var n := LeadingChunks(rs);
    var kept := Flatten(Payloads(rs[..n]));
    var w := [Greeting(user)] + Acks(rs[..n]) + [DoneReading, Echo(kept)];
    assert WritesSucceed(ws, 1, n + 3);
    CleanEofCompletes(user, rs, ws);
    CompletedTranscript(user, rs, ws);
    assert Run(user, rs, ws).writes == w;
    CompletedBytes(user, rs[..n], kept, ws);
  }

  /** A `got` line carries its count recoverably: reading the count back from
      a line gives `n` exactly when the line is the one written for `n`. */
  lemma AckLineRoundTrip(line: seq<byte>, n: nat)
    ensures ParseAck(line) == Some(n) <==> line == AckLine(n)
  {
    var p, s := |AckPrefix|, |AckSuffix|;
    if line == AckLine(n) {
      assert line[..p] == AckPrefix;
      assert line[|line| - s..] == AckSuffix;
      assert line[p..|line| - s] == Decimal(n);
      DecimalRoundTrip(n);
    }
    if ParseAck(line) == Some(n) {
      var mid := line[p..|line| - s];
      ParseDecimalRoundTrip(mid, n);
      assert line == line[..p] + mid + line[|line| - s..];
    }
  }
}
