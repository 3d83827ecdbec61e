/**
 The transfer between two managers told from outside: what is queued is what is sent, what the
 receiver's store said about each object stays with it, and the transfer comes to an end with
 everything received.
 */
module TransferHistory {
  import opened TransferSpec

  // ---- What was queued, and what the receiver's store said ----

  function Enqueued(run: seq<Action>): seq<Object> {
    if run == [] then [] else (if run[0].Enqueue? then [run[0].x] else []) + Enqueued(run[1..])
  }

  /** Over every run: the objects to send are those queued, in that order. */
  lemma {:induction false} RunQueues(s: System, run: seq<Action>)
    requires FeasibleRun(s, run)
    ensures RunAll(s, run).objects == s.objects + Enqueued(run)
    decreases |run|
  {
    if run != [] {
      var s' := Step(s, run[0]);
      assert s'.objects == s.objects + (if run[0].Enqueue? then [run[0].x] else []);
      RunQueues(s', run[1..]);
    }
  }

  /** What the receiver's store said about each object whose header has been read. */
  function Verdicts(s: System): seq<bool> {
    seq(|s.finished|, i requires 0 <= i < |s.finished| => s.finished[i].accepted)
      + (if s.mode.Reading? then [s.mode.accepted] else [])
  }

  function Accepted(run: seq<Action>): seq<bool> {
    if run == [] then [] else (if run[0].ReadHeader? then [run[0].accepted] else []) + Accepted(run[1..])
  }

  lemma StepVerdicts(s: System, a: Action)
    requires Inv(s) && Enabled(s, a) && !PartialWrite(s, a)
    ensures Verdicts(Step(s, a)) == Verdicts(s) + (if a.ReadHeader? then [a.accepted] else [])
  {
    if a.ReadHeader? {
      HeaderIsNext(s);
    }
    if a.ReadChunk? {
      ChunkIsNext(s, a.r);
    }
  }

  /** Over every run with full writes: each object is kept or dropped as the store said when its header
      was read, in the order of the headers. */
  lemma {:induction false} RunVerdicts(s: System, run: seq<Action>)
    requires Inv(s) && FeasibleRun(s, run) && FullWrites(s, run)
    ensures Verdicts(RunAll(s, run)) == Verdicts(s) + Accepted(run)
    decreases |run|
  {
    hide Inv, Step, Enabled, PartialWrite, Verdicts;
    if run == [] {
      assert Verdicts(s) + [] == Verdicts(s);
    } else {
      var s', first := Step(s, run[0]), if run[0].ReadHeader? then [run[0].accepted] else [];
      StepVerdicts(s, run[0]);
      StepKeepsIff(s, run[0]);
      RunVerdicts(s', run[1..]);
      assert (Verdicts(s) + first) + Accepted(run[1..]) == Verdicts(s) + (first + Accepted(run[1..]));
    }
  }

  // ---- The transfer ends ----

  /** What is left to do: items to write and to read, objects to end on either side. */
  function Left(s: System): int
    requires s.sent <= |s.objects| && |s.finished| <= |s.objects|
  {
    var n := |Stream(s.objects)|;
    (n - SendPos(s)) + (n - RecvPos(s)) + (|s.objects| - s.sent) + (|s.objects| - |s.finished|)
  }

  lemma LeftIsNatural(s: System)
    requires Inv(s)
    ensures Left(s) >= 0
  {
  }

  lemma SendShrinks(s: System, r: nat)
    requires Inv(s) && Enabled(s, WriteChunk(r)) && !PartialWrite(s, WriteChunk(r))
    ensures Left(Step(s, WriteChunk(r))) < Left(s)
  {
    hide Stream, Bytes, Added, Holds, Begins, Offset, Chunk, SendNext;
    SendNextIs(s, r);
    StreamNext(s.objects, s.sent);
    SendKeepsOthers(s, r);
  }

  lemma HeaderShrinks(s: System, accepted: bool)
    requires Inv(s) && Enabled(s, ReadHeader(accepted))
    ensures Left(Step(s, ReadHeader(accepted))) < Left(s)
  {
    hide Stream, Holds, Offset;
    HeaderIsNext(s);
  }

  lemma ChunkShrinks(s: System, r: nat)
    requires Inv(s) && Enabled(s, ReadChunk(r))
    ensures Left(Step(s, ReadChunk(r))) < Left(s)
  {
    hide Stream, Offset, AllRaw, BytesOf, Holds, Begins, Bytes, Chunk;
    ChunkIsNext(s, r);
    StreamNext(s.objects, |s.finished|);
    assert |s.mode.got + BytesOf(s.wire[..r])| == |s.mode.got| + r;
  }

  predicate NothingQueued(run: seq<Action>) {
    forall i :: 0 <= i < |run| ==> !run[i].Enqueue?
  }

  /** Without partial writes and unless more is queued, every run ends: each event, of either side,
      leaves less to do. */
  lemma {:induction false} RunsEnd(s: System, run: seq<Action>)
    requires Inv(s) && FeasibleRun(s, run) && FullWrites(s, run) && NothingQueued(run)
    ensures Inv(RunAll(s, run)) && Left(RunAll(s, run)) + |run| <= Left(s)
    ensures |run| <= Left(s)
    decreases |run|
  {
    LeftIsNatural(s);
    if run != [] {
      StepKeepsIff(s, run[0]);
      match run[0] {
        case WriteChunk(r) => SendShrinks(s, r);
        case ReadHeader(accepted) => HeaderShrinks(s, accepted);
        case ReadChunk(r) => ChunkShrinks(s, r);
      }
      hide Left, Step, Enabled, PartialWrite, Holds, Stream, Begins;
      RunsEnd(Step(s, run[0]), run[1..]);
    }
  }

  /** Neither side has anything to do. */
  ghost predicate Stopped(s: System) {
    forall a :: Enabled(s, a) && !PartialWrite(s, a) ==> a.Enqueue?
  }

  /** Both sides stop only when all is written and the wire is empty. */
  lemma StoppedMeansQuiet(s: System)
    requires Inv(s)
    ensures Stopped(s) ==> s.sent == |s.objects| && s.wire == []
  {
    if s.sent < |s.objects| {
      var r := Chunk(|Bytes(s.objects[s.sent])| - s.cursor);
      assert Enabled(s, WriteChunk(r)) && !PartialWrite(s, WriteChunk(r));
    } else if s.wire != [] {
      if s.mode.Listening? {
        assert Enabled(s, ReadHeader(true));
      } else {
        var left := Chunk(s.mode.size - |s.mode.got|);
        var r := if left <= |s.wire| then left else |s.wire|;
        assert Enabled(s, ReadChunk(r));
      }
    }
  }

  /** Over every run with full writes that has come to its end: all objects queued have arrived, byte
      for byte and in order, if and only if the last one is not empty; otherwise all but that one. */
  lemma AllArrives(run: seq<Action>)
    requires FeasibleRun(INITIAL, run) && FullWrites(INITIAL, run) && Stopped(RunAll(INITIAL, run))
    ensures
      var xs, ys := Enqueued(run), RunAll(INITIAL, run).finished;
      && (forall i :: 0 <= i < |ys| && i < |xs| ==> ys[i].id == xs[i].id && ys[i].bytes == Bytes(xs[i]))
      && (if xs == [] || Bytes(xs[|xs| - 1]) != [] then |ys| == |xs| else |ys| == |xs| - 1)
      && (forall i :: 0 <= i < |ys| && i < |Accepted(run)| ==> ys[i].accepted == Accepted(run)[i])
      && |Accepted(run)| == |xs|
  {
    hide Stopped, Holds, Stream, Begins, FullWrites, FeasibleRun, RunAll, Inv, Bytes;
    var s := RunAll(INITIAL, run);
    InitialInv();
    RunKeepsIff(INITIAL, run);
    RunQueues(INITIAL, run);
    assert INITIAL.objects + Enqueued(run) == Enqueued(run);
    RunVerdicts(INITIAL, run);
    assert Verdicts(INITIAL) + Accepted(run) == Accepted(run);
    StoppedMeansQuiet(s);
    QuietIsAll(s);
  }

  lemma QuietIsAll(s: System)
    requires Inv(s) && s.sent == |s.objects| && s.wire == []
    ensures
      var xs, ys := s.objects, s.finished;
      && (forall i :: 0 <= i < |ys| && i < |xs| ==> ys[i].id == xs[i].id && ys[i].bytes == Bytes(xs[i]))
      && (if xs == [] || Bytes(xs[|xs| - 1]) != [] then |ys| == |xs| else |ys| == |xs| - 1)
      && |Verdicts(s)| == |xs| && forall i :: 0 <= i < |ys| ==> ys[i].accepted == Verdicts(s)[i]
  {
    QuietMeansReceived(s);
  }
}
