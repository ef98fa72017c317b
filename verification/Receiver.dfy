/** One call of Receive, and whole runs of calls, on values.

    The serial port is the list of answers it will give: every way a reader may split
    a stream, delay it, or interleave it with errors is such a list. */
module Receiver {
  import opened Bytes
  import opened Frames
  import opened Seqs

  // An answer of the port: some bytes, possibly none, possibly together with an error.
  datatype ReadStep = ReadStep(data: seq<byte>, failed: bool)

  // What one read hands over, and the answers that remain.
  datatype ReadResult = ReadResult(data: seq<byte>, failed: bool, steps: seq<ReadStep>)

  // A read into `room` free bytes.  Data that does not fit waits for the next read, and
  // so does the error that came with it.
  function Read(steps: seq<ReadStep>, room: nat): (r: ReadResult)
    ensures |r.data| <= room
  {
    if steps == [] then ReadResult([], false, [])
    else if |steps[0].data| <= room then ReadResult(steps[0].data, steps[0].failed, steps[1..])
    else ReadResult(steps[0].data[..room], false, [ReadStep(steps[0].data[room..], steps[0].failed)] + steps[1..])
  }

  // All the bytes the port still holds.
  function Pending(steps: seq<ReadStep>): seq<byte> {
    if steps == [] then [] else steps[0].data + Pending(steps[1..])
  }

  // Reading moves bytes, in order, and neither loses nor invents any.
  lemma {:induction false} ReadConserves(steps: seq<ReadStep>, room: nat)
    ensures var r := Read(steps, room); r.data + Pending(r.steps) == Pending(steps)
  {
    var r := Read(steps, room);
    if steps != [] && |steps[0].data| > room {
      assert r.steps[1..] == steps[1..];
      assert steps[0].data[..room] + steps[0].data[room..] == steps[0].data;
    }
  }

  datatype Outcome = Frame(bytes: seq<byte>) | Nothing | Failed

  datatype Received = Received(outcome: Outcome, buffered: seq<byte>, steps: seq<ReadStep>, taken: seq<byte>)

  // What Receive makes of a read, with `rest` undecided bytes in the buffer.
  function Accept(rest: seq<byte>, read: ReadResult): Received {
    var now := rest + read.data;
    if read.failed then Received(Failed, now, read.steps, read.data)
    else if read.data == [] then Received(Nothing, now, read.steps, read.data)
    else match NextFrame(now)
      case Found(frame, later) => Received(Frame(frame), later, read.steps, read.data)
      case NeedMore(later) => Received(Nothing, later, read.steps, read.data)
  }

  // One call of Receive with `buffered` undelivered bytes in the buffer.
  function Receive(buffered: seq<byte>, steps: seq<ReadStep>): (r: Received)
    requires |buffered| <= MAX_FRAME
    ensures |r.buffered| <= MAX_FRAME
  {
    match NextFrame(buffered)
    case Found(frame, rest) => Received(Frame(frame), rest, steps, [])
    case NeedMore(rest) => Accept(rest, Read(steps, MAX_FRAME - |rest|))
  }

  function Delivered(outcome: Outcome): seq<seq<byte>> {
    if outcome.Frame? then [outcome.bytes] else []
  }

  lemma AcceptRefinesScan(rest: seq<byte>, read: ReadResult)
    ensures var r := Accept(rest, read); Yields(rest + read.data, Delivered(r.outcome), r.buffered)
  {
    var now := rest + read.data;
    if !read.failed && read.data != [] && NextFrame(now).NeedMore? {
      Undecided(now, []);
    }
    assert [] + Scan(now).frames == Scan(now).frames;
  }

  // The same with the bytes in front that the search has given up on.
  lemma ReadRefinesScan(buffered: seq<byte>, rest: seq<byte>, read: ReadResult)
    requires NextFrame(buffered) == NeedMore(rest)
    ensures var r := Accept(rest, read);
            && Yields(buffered + read.data, Delivered(r.outcome), r.buffered)
            && r.taken == read.data && r.steps == read.steps
  {
    Undecided(buffered, read.data);
    AcceptRefinesScan(rest, read);
  }

  // Whatever one call returns, the frames it delivers and those still to be scanned
  // are those of the bytes it had and the bytes it took.
  lemma {:induction false} ReceiveRefinesScan(buffered: seq<byte>, steps: seq<ReadStep>)
    requires |buffered| <= MAX_FRAME
    ensures var r := Receive(buffered, steps);
            && Yields(buffered + r.taken, Delivered(r.outcome), r.buffered)
            && r.taken + Pending(r.steps) == Pending(steps)
  {
    match NextFrame(buffered)
    case Found(frame, rest) =>
      assert buffered + [] == buffered;
    case NeedMore(rest) =>
      var room := MAX_FRAME - |rest|;
      ReadConserves(steps, room);
      ReadRefinesScan(buffered, rest, Read(steps, room));
  }

  // The port answers the next read with an error, and the data that comes with it fits the
  // room that is left.
  predicate Failing(buffered: seq<byte>, steps: seq<ReadStep>) {
    steps != [] && steps[0].failed && |steps[0].data| <= 65540 - |NextFrame(buffered).rest|
  }

  // What one call answers, in terms of the bytes it has and of the port: a frame that is
  // already there, without a read; otherwise the port's error, exactly if there is one; the
  // first frame of all these bytes, exactly if they hold one; or nothing.
  lemma {:induction false} OutcomeIs(buffered: seq<byte>, steps: seq<ReadStep>)
    requires |buffered| <= 65540
    ensures var r := Receive(buffered, steps);
            var ready, frames := Scan(buffered).frames != [], Scan(buffered + r.taken).frames;
            && (ready ==> r.taken == [] && r.steps == steps)
            && (r.outcome == Failed <==> !ready && Failing(buffered, steps))
            && (r.outcome.Frame? <==> ready || (!Failing(buffered, steps) && frames != []))
            && (r.outcome.Frame? ==> frames != [] && r.outcome.bytes == frames[0])
            && (r.outcome == Nothing <==> !ready && !Failing(buffered, steps) && frames == [])
  {
    var r := Receive(buffered, steps);
    ReceiveRefinesScan(buffered, steps);
    match NextFrame(buffered)
    case Found(frame, rest) => assert buffered + [] == buffered;
    case NeedMore(rest) =>
      NoStall(buffered);
      Undecided(buffered, r.taken);
      ReadAnswers(buffered, rest, steps);
  }

  lemma {:induction false} ReadAnswers(buffered: seq<byte>, rest: seq<byte>, steps: seq<ReadStep>)
    requires NextFrame(buffered) == NeedMore(rest) && |rest| < MAX_FRAME
    ensures var read := Read(steps, MAX_FRAME - |rest|);
            read.failed == Failing(buffered, steps) && (read.data == [] ==> Scan(rest + read.data).frames == [])
  {
    NeedMoreMeans(buffered);
    assert rest + [] == rest;
  }

  // The same, for a receiver with a history: all bytes read and all frames returned so far.
  lemma StepKeepsScan(input: seq<byte>, output: seq<seq<byte>>, buffered: seq<byte>, steps: seq<ReadStep>)
    requires |buffered| <= MAX_FRAME
    requires Yields(input, output, buffered)
    ensures var r := Receive(buffered, steps);
            Yields(input + r.taken, output + Delivered(r.outcome), r.buffered)
  {
    var r := Receive(buffered, steps);
    ReceiveRefinesScan(buffered, steps);
    YieldsMore(input, output, buffered, r.taken);
    YieldsThen(input + r.taken, output, buffered + r.taken, Delivered(r.outcome), r.buffered);
  }

  // ----- Runs -----

  datatype Run = Run(
    delivered: seq<seq<byte>>, failures: nat, buffered: seq<byte>, steps: seq<ReadStep>, taken: seq<byte>)

  // n calls of Receive, one after the other.
  function Calls(buffered: seq<byte>, steps: seq<ReadStep>, n: nat): (run: Run)
    requires |buffered| <= MAX_FRAME
    ensures |run.buffered| <= MAX_FRAME
    decreases n
  {
    if n == 0 then Run([], 0, buffered, steps, [])
    else
      var first := Receive(buffered, steps);
      var later := Calls(first.buffered, first.steps, n - 1);
      Run(Delivered(first.outcome) + later.delivered, (if first.outcome.Failed? then 1 else 0) + later.failures,
          later.buffered, later.steps, first.taken + later.taken)
  }

  // How often the port still has to fail.
  function Failures(steps: seq<ReadStep>): nat {
    if steps == [] then 0 else (if steps[0].failed then 1 else 0) + Failures(steps[1..])
  }

  lemma {:induction false} ReceiveKeepsFailures(buffered: seq<byte>, steps: seq<ReadStep>)
    requires |buffered| <= MAX_FRAME
    ensures var r := Receive(buffered, steps);
            (if r.outcome == Failed then 1 else 0) + Failures(r.steps) == Failures(steps)
  {
    if NextFrame(buffered).NeedMore? && steps != [] {
      var rest := NextFrame(buffered).rest;
      var read := Read(steps, MAX_FRAME - |rest|);
      if |steps[0].data| > MAX_FRAME - |rest| {
        assert read.steps[1..] == steps[1..];
      }
    }
  }

  // Over any run, errors reported and errors still to come are the errors of the port.
  lemma {:induction false} RunKeepsFailures(buffered: seq<byte>, steps: seq<ReadStep>, n: nat)
    requires |buffered| <= MAX_FRAME
    ensures var run := Calls(buffered, steps, n); run.failures + Failures(run.steps) == Failures(steps)
    decreases n
  {
    if n > 0 {
      ReceiveKeepsFailures(buffered, steps);
      var first := Receive(buffered, steps);
      RunKeepsFailures(first.buffered, first.steps, n - 1);
    }
  }

  // Calling Receive often enough reports every error of the port once, and no other.
  lemma {:induction false} EveryFailureReported(steps: seq<ReadStep>, n: nat)
    requires Work([], steps) <= n
    ensures Calls([], steps, n).failures == Failures(steps)
  {
    RunKeepsFailures([], steps, n);
    Exhausted([], steps, n);
  }

  // The refinement, over whole runs and from any buffer: delivered frames, then a scan of
  // what is buffered, is a scan of everything read so far.
  lemma {:induction false} RunRefinesScan(buffered: seq<byte>, steps: seq<ReadStep>, n: nat)
    requires |buffered| <= MAX_FRAME
    ensures var run := Calls(buffered, steps, n);
            && Yields(buffered + run.taken, run.delivered, run.buffered)
            && run.taken + Pending(run.steps) == Pending(steps)
    decreases n
  {
    if n == 0 {
      assert buffered + [] == buffered;
    } else {
      var first := Receive(buffered, steps);
      var later := Calls(first.buffered, first.steps, n - 1);
      RunRefinesScan(first.buffered, first.steps, n - 1);
      ReceiveRefinesScan(buffered, steps);
      RunComposes(buffered, first, later);
      Assoc(first.taken, later.taken, Pending(later.steps));
    }
  }

  lemma RunComposes(buffered: seq<byte>, first: Received, later: Run)
    requires Yields(buffered + first.taken, Delivered(first.outcome), first.buffered)
    requires Yields(first.buffered + later.taken, later.delivered, later.buffered)
    ensures Yields(buffered + (first.taken + later.taken), Delivered(first.outcome) + later.delivered, later.buffered)
  {
    var all := buffered + first.taken;
    YieldsMore(all, Delivered(first.outcome), first.buffered, later.taken);
    YieldsThen(all + later.taken, Delivered(first.outcome), first.buffered + later.taken, later.delivered,
        later.buffered);
    Assoc(buffered, first.taken, later.taken);
  }

  // What is left to do: every call that is not idle makes this smaller.
  function Work(buffered: seq<byte>, steps: seq<ReadStep>): nat {
    |steps| + 2 * |Pending(steps)| + |buffered|
  }

  lemma {:induction false} ReadProgress(steps: seq<ReadStep>, room: nat)
    requires steps != [] && room > 0
    ensures var r := Read(steps, room);
            |r.steps| + 2 * |Pending(r.steps)| + |r.data| < |steps| + 2 * |Pending(steps)|
  {
    ReadConserves(steps, room);
    var r := Read(steps, room);
    assert |Pending(steps)| == |r.data| + |Pending(r.steps)|;
  }

  lemma {:induction false} ReceiveProgress(buffered: seq<byte>, steps: seq<ReadStep>)
    requires |buffered| <= MAX_FRAME
    requires steps != [] || NextFrame(buffered).Found?
    ensures var r := Receive(buffered, steps); Work(r.buffered, r.steps) < Work(buffered, steps)
  {
    var r := Receive(buffered, steps);
    match NextFrame(buffered)
    case Found(frame, rest) =>
    case NeedMore(rest) =>
      NoStall(buffered);
      ReadProgress(steps, MAX_FRAME - |rest|);
      assert |r.buffered| <= |rest| + |r.taken|;
  }

  // Once the port has nothing more and no frame is buffered, further calls change nothing
  // that matters.
  lemma {:induction false} Idle(buffered: seq<byte>, n: nat)
    requires |buffered| <= MAX_FRAME && NextFrame(buffered).NeedMore?
    ensures var run := Calls(buffered, [], n);
            run.delivered == [] && run.steps == [] && Scan(run.buffered).frames == []
    decreases n
  {
    if n > 0 {
      NeedMoreMeans(buffered);
      var rest := NextFrame(buffered).rest;
      assert rest + [] == rest;
      Idle(rest, n - 1);
    }
  }

  lemma {:induction false} Exhausted(buffered: seq<byte>, steps: seq<ReadStep>, n: nat)
    requires |buffered| <= MAX_FRAME && Work(buffered, steps) <= n
    ensures var run := Calls(buffered, steps, n); run.steps == [] && Scan(run.buffered).frames == []
    decreases n
  {
    if steps == [] && NextFrame(buffered).NeedMore? {
      Idle(buffered, n);
    } else {
      ReceiveProgress(buffered, steps);
      var first := Receive(buffered, steps);
      Exhausted(first.buffered, first.steps, n - 1);
    }
  }

  // However the port cuts the stream into reads, and wherever it fails in between, calling
  // Receive often enough delivers exactly the frames of the whole stream, in order.
  lemma {:induction false} EveryFrameDelivered(steps: seq<ReadStep>, n: nat)
    requires Work([], steps) <= n
    ensures Calls([], steps, n).delivered == Scan(Pending(steps)).frames
  {
    RunRefinesScan([], steps, n);
    Exhausted([], steps, n);
    var run := Calls([], steps, n);
    assert [] + run.taken == run.taken;
    assert run.taken + [] == run.taken;
  }

  // Two ports that carry the same bytes are indistinguishable by the frames received.
  lemma {:induction false} ChunkingIndependent(one: seq<ReadStep>, two: seq<ReadStep>, n: nat, m: nat)
    requires Pending(one) == Pending(two)
    requires Work([], one) <= n && Work([], two) <= m
    ensures Calls([], one, n).delivered == Calls([], two, m).delivered
  {
    EveryFrameDelivered(one, n);
    EveryFrameDelivered(two, m);
  }
}
