/**
 * An independent description of the session handler's transcript, built from
 * two separate scans (how many reads are plain chunks, and which write fails
 * first), and the properties of the handler that follow from it.
 */
module SessionSpec {
  import opened Wrappers
  import opened Bytes
  import opened Session

  /** How many reads, from the front, returned data without an error. */
  function LeadingChunks(rs: seq<ReadResult>): (n: nat)
    ensures n <= |rs|
  {
    if |rs| == 0 || !rs[0].Chunk? then 0 else 1 + LeadingChunks(rs[1..])
  }

  /** LeadingChunks counts plain chunks and stops at the first other result. */
  lemma {:induction false} LeadingChunksSpec(rs: seq<ReadResult>)
    ensures forall j :: 0 <= j < LeadingChunks(rs) ==> rs[j].Chunk?
    ensures LeadingChunks(rs) < |rs| ==> !rs[LeadingChunks(rs)].Chunk?
  {
    if |rs| > 0 && rs[0].Chunk? {
      LeadingChunksSpec(rs[1..]);
      assert forall j :: 1 <= j < |rs| ==> rs[j] == rs[1..][j - 1];
    }
  }

  /** The first write at or after number `k` that fails, if any does. */
  function FirstFailedWrite(ws: seq<bool>, k: nat): (f: Option<nat>)
    ensures f.Some? ==> k <= f.value
    decreases |ws| - k
  {
    if k >= |ws| then None
    else if !ws[k] then Some(k)
    else FirstFailedWrite(ws, k + 1)
  }

  /** FirstFailedWrite finds the least failing write, and None means none fails. */
  lemma {:induction false} FirstFailedWriteSpec(ws: seq<bool>, k: nat)
    ensures var f := FirstFailedWrite(ws, k);
            && (f.Some? ==> !WriteOk(ws, f.value) && forall i :: k <= i < f.value ==> WriteOk(ws, i))
            && (f.None? ==> forall i :: k <= i ==> WriteOk(ws, i))
    decreases |ws| - k
  {
    if k < |ws| && ws[k] {
      FirstFailedWriteSpec(ws, k + 1);
    }
  }

  /** How many chunks are acknowledged, when the loop starts at write number `k`:
      the leading chunks, cut short by the first failed write. */
  function Acknowledged(rs: seq<ReadResult>, ws: seq<bool>, k: nat): (m: nat)
    ensures m <= LeadingChunks(rs)
  {
    var n := LeadingChunks(rs);
    match FirstFailedWrite(ws, k)
    case None => n
    case Some(f) => if f - k < n then f - k else n
  }

  /** How many `got` lines the loop entered at write number `k` attempts: one
      per leading chunk, up to and including the first whose write fails. */
  function AckAttempts(rs: seq<ReadResult>, ws: seq<bool>, k: nat): nat
  {
    var m := Acknowledged(rs, ws, k);
    if m < LeadingChunks(rs) then m + 1 else LeadingChunks(rs)
  }

  /** The acknowledgement each read would get. */
  function Acks(rs: seq<ReadResult>): seq<Msg>
  {
    seq(|rs|, j requires 0 <= j < |rs| => Got(|rs[j].data|))
  }

  /** The bytes of each read. */
  function Payloads(rs: seq<ReadResult>): seq<seq<byte>>
  {
    seq(|rs|, j requires 0 <= j < |rs| => rs[j].data)
  }

  /** How the read loop entered with write number `k` next ends: the first of
      a failed `got` line, running out of reads, a read error, a failed closing
      line, and the outcome of the echo. */
  function Ending(rs: seq<ReadResult>, ws: seq<bool>, k: nat): Status
  {
    var n := LeadingChunks(rs);
    if Acknowledged(rs, ws, k) < n then AckFailed
    else if n == |rs| then Waiting
    else if rs[n].ReadError? then ReadFailed
    else if !WriteOk(ws, k + n) then DoneFailed
    else if WriteOk(ws, k + n + 1) then Completed
    else EchoFailed
  }

  /** The data kept: `buffer`, then the acknowledged chunks in read order. */
  function Kept(rs: seq<ReadResult>, ws: seq<bool>, k: nat, buffer: seq<byte>): seq<byte>
  {
    buffer + Flatten(Payloads(rs[..Acknowledged(rs, ws, k)]))
  }

  /** The writes the read loop attempts: a `got` line per chunk read, then the
      closing line and the echo if the reads got that far. */
  function ExpectedWrites(rs: seq<ReadResult>, ws: seq<bool>, k: nat, kept: seq<byte>): seq<Msg>
  {
    var n := LeadingChunks(rs);
    match Ending(rs, ws, k)
    case AckFailed => Acks(rs[..Acknowledged(rs, ws, k) + 1])
    case Waiting => Acks(rs[..n])
    case ReadFailed => Acks(rs[..n])
    case DoneFailed => Acks(rs[..n]) + [DoneReading]
    case Completed => Acks(rs[..n]) + [DoneReading, Echo(kept)]
    case EchoFailed => Acks(rs[..n]) + [DoneReading, Echo(kept)]
  }

  /** The transcript of the read loop entered with write number `k` next and
      `buffer` kept, stated from how the reads and the writes end. */
  function Expected(rs: seq<ReadResult>, ws: seq<bool>, k: nat, buffer: seq<byte>): Transcript
  {
    var kept := Kept(rs, ws, k, buffer);
    Transcript(ExpectedWrites(rs, ws, k, kept), Ending(rs, ws, k), kept)
  }

  /** The whole session as Expected describes it. */
  function ExpectedRun(user: seq<byte>, rs: seq<ReadResult>, ws: seq<bool>): Transcript
  {
    var e := Expected(rs, ws, 1, []);
    Transcript([Greeting(user)] + e.writes, e.status, e.buffer)
  }

  lemma AcksCons(rs: seq<ReadResult>, j: nat)
    requires j < |rs|
    ensures Acks(rs[..j + 1]) == [Got(|rs[0].data|)] + Acks(rs[1..][..j])
  {
  }

  lemma PayloadsCons(rs: seq<ReadResult>, j: nat)
    requires j < |rs|
    ensures Flatten(Payloads(rs[..j + 1])) == rs[0].data + Flatten(Payloads(rs[1..][..j]))
  {
    assert Payloads(rs[..j + 1])[1..] == Payloads(rs[1..][..j]);
  }

  /** The counts, after one acknowledged chunk. */
  lemma StepCounts(rs: seq<ReadResult>, ws: seq<bool>, k: nat)
    requires |rs| > 0 && rs[0].Chunk? && WriteOk(ws, k)
    ensures LeadingChunks(rs) == LeadingChunks(rs[1..]) + 1
    ensures Acknowledged(rs, ws, k) == Acknowledged(rs[1..], ws, k + 1) + 1
  {
  }

  lemma StepEnding(rs: seq<ReadResult>, ws: seq<bool>, k: nat)
    requires |rs| > 0 && rs[0].Chunk? && WriteOk(ws, k)
    ensures Ending(rs, ws, k) == Ending(rs[1..], ws, k + 1)
  {
  }

  lemma StepKept(rs: seq<ReadResult>, ws: seq<bool>, k: nat, buffer: seq<byte>)
    requires |rs| > 0 && rs[0].Chunk? && WriteOk(ws, k)
    ensures Kept(rs, ws, k, buffer) == Kept(rs[1..], ws, k + 1, buffer + rs[0].data)
  {
    StepCounts(rs, ws, k);
    PayloadsCons(rs, Acknowledged(rs[1..], ws, k + 1));
  }

  /** The `got` line of the first chunk, then the rest's writes. The solver
      finds this alone but slowly; the steps below keep it cheap on every seed. */
  lemma StepWrites(rs: seq<ReadResult>, ws: seq<bool>, k: nat, kept: seq<byte>)
    requires |rs| > 0 && rs[0].Chunk? && WriteOk(ws, k)
    ensures ExpectedWrites(rs, ws, k, kept) == [Got(|rs[0].data|)] + ExpectedWrites(rs[1..], ws, k + 1, kept)
  {
    StepCounts(rs, ws, k);
    StepEnding(rs, ws, k);
    var rest, b := rs[1..], rs[0].data;
    var n, n' := LeadingChunks(rs), LeadingChunks(rest);
    var m' := Acknowledged(rest, ws, k + 1);
    if m' + 1 < n {
      AcksCons(rs, m');
    } else {
      AcksCons(rs, n');
      var acks, acks' := Acks(rs[..n]), Acks(rest[..n']);
      assert acks + [DoneReading] == [Got(|b|)] + (acks' + [DoneReading]);
      assert acks + [DoneReading, Echo(kept)] == [Got(|b|)] + (acks' + [DoneReading, Echo(kept)]);
    }
  }

  /** One acknowledged chunk, unrolled: its `got` line, then the rest. */
  lemma ExpectedStep(rs: seq<ReadResult>, ws: seq<bool>, k: nat, buffer: seq<byte>)
    requires |rs| > 0 && rs[0].Chunk? && WriteOk(ws, k)
    ensures var e := Expected(rs[1..], ws, k + 1, buffer + rs[0].data);
            Expected(rs, ws, k, buffer) == Transcript([Got(|rs[0].data|)] + e.writes, e.status, e.buffer)
  {
    StepEnding(rs, ws, k);
    StepKept(rs, ws, k, buffer);
    StepWrites(rs, ws, k, Kept(rs, ws, k, buffer));
  }

  /** The read loop produces exactly the transcript Expected describes. */
  lemma {:induction false} ContinueIsExpected(rs: seq<ReadResult>, ws: seq<bool>, k: nat, buffer: seq<byte>)
    ensures Continue(rs, ws, k, buffer) == Expected(rs, ws, k, buffer)
    decreases |rs|
  {
    if |rs| > 0 && rs[0].Chunk? && WriteOk(ws, k) {
      ContinueIsExpected(rs[1..], ws, k + 1, buffer + rs[0].data);
      ExpectedStep(rs, ws, k, buffer);
    } else if |rs| > 0 && rs[0].Chunk? {
      assert FirstFailedWrite(ws, k) == Some(k);
      assert Acknowledged(rs, ws, k) == 0;
      assert Acks(rs[..1]) == [Got(|rs[0].data|)];
      assert Payloads(rs[..0]) == [];
    } else {
      assert LeadingChunks(rs) == 0 && Acknowledged(rs, ws, k) == 0;
      assert Payloads(rs[..0]) == [];
      assert Kept(rs, ws, k, buffer) == buffer;
      assert Acks(rs[..0]) == [];
      if |rs| > 0 && rs[0].ChunkWithEof? {
        assert Acks(rs[..0]) + [DoneReading] == [DoneReading];
        assert Acks(rs[..0]) + [DoneReading, Echo(buffer)] == [DoneReading, Echo(buffer)];
      }
    }
  }

  /** The handler's transcript is the one Expected describes. */
  lemma RunIsExpected(user: seq<byte>, rs: seq<ReadResult>, ws: seq<bool>)
    ensures Run(user, rs, ws) == ExpectedRun(user, rs, ws)
  {
    ContinueIsExpected(rs, ws, 1, []);
  }

  /** The pieces of a whole session, as Expected gives them. */
  lemma RunParts(user: seq<byte>, rs: seq<ReadResult>, ws: seq<bool>)
    ensures var t, kept := Run(user, rs, ws), Kept(rs, ws, 1, []);
            && t.writes == [Greeting(user)] + ExpectedWrites(rs, ws, 1, kept)
            && t.status == Ending(rs, ws, 1)
            && t.buffer == kept
  {
    RunIsExpected(user, rs, ws);
  }

  /** The shape of the loop's writes: the attempted `got` lines for the reads in
      order, then at most the closing line and the echo of the kept data. */
  lemma ExpectedWritesShape(rs: seq<ReadResult>, ws: seq<bool>, k: nat, kept: seq<byte>)
    ensures var w, c, e := ExpectedWrites(rs, ws, k, kept), AckAttempts(rs, ws, k), Ending(rs, ws, k);
            && c <= LeadingChunks(rs)
            && c <= |w| <= c + 2
            && (c < |w| ==> w[c] == DoneReading)
            && (forall i :: 0 <= i < c ==> w[i] == Got(|rs[i].data|))
            && (forall i :: c <= i < |w| ==> !w[i].Got?)
            && (forall i :: 0 <= i < |w| - 1 ==> !w[i].Echo?)
            && (|w| > 0 && w[|w| - 1].Echo? <==> e == Completed || e == EchoFailed)
            && (e == Completed || e == EchoFailed ==>
                  |w| >= c + 2 && w[|w| - 1] == Echo(kept) && w[|w| - 2] == DoneReading)
  {
    // The solver can find this unaided but at several times the cost; the
    // case split keeps it cheap on every seed.
    var w, c, n := ExpectedWrites(rs, ws, k, kept), AckAttempts(rs, ws, k), LeadingChunks(rs);
    var acks := Acks(rs[..c]);
    assert forall i :: 0 <= i < c ==> acks[i].Got?;
    match Ending(rs, ws, k)
    case AckFailed =>
      assert w == acks;
    case Waiting =>
      assert w == acks;
    case ReadFailed =>
      assert w == acks;
    case DoneFailed =>
      assert w == acks + [DoneReading];
    case Completed =>
      assert w == acks + [DoneReading, Echo(kept)];
    case EchoFailed =>
      assert w == acks + [DoneReading, Echo(kept)];
  }

  /** Every leading chunk is acknowledged exactly when none of their writes fails. */
  lemma AcknowledgedAll(rs: seq<ReadResult>, ws: seq<bool>, k: nat)
    ensures Acknowledged(rs, ws, k) == LeadingChunks(rs)
            <==> WritesSucceed(ws, k, k + LeadingChunks(rs))
  {
    FirstFailedWriteSpec(ws, k);
    if WritesSucceed(ws, k, k + LeadingChunks(rs)) {
      match FirstFailedWrite(ws, k)
      case None =>
      case Some(f) =>
        assert !WriteOk(ws, f);
    }
  }

  /** The loop attempts the echo only after every `got` line and the closing
      line were written. */
  lemma EchoAttemptedWrites(rs: seq<ReadResult>, ws: seq<bool>, k: nat)
    requires Ending(rs, ws, k) == Completed || Ending(rs, ws, k) == EchoFailed
    ensures WritesSucceed(ws, k, k + LeadingChunks(rs) + 1)
  {
    var n := LeadingChunks(rs);
    AcknowledgedAll(rs, ws, k);
    assert Acknowledged(rs, ws, k) == n;
    assert WriteOk(ws, k + n);
    forall i | k <= i < k + n + 1
      ensures WriteOk(ws, i)
    {
      if i < k + n {
        assert WritesSucceed(ws, k, k + n);
      }
    }
  }
}
