/** The radio link from top to bottom: what a requester and the base read from the link is
    what the driver makes of the bytes, so it is what scanning the stream finds. */
module RadioStack {
  import opened Bytes
  import opened Codec
  import opened Frames
  import opened KeepAlive
  import opened Options
  import opened RadioTransport
  import opened Receiver
  import opened Seqs

  // The driver's outcome as the link hands it on.
  function AsRead(outcome: Receiver.Outcome): LinkRead {
    match outcome
    case Frame(bytes) => LinkRead(bytes, false)
    case Nothing => LinkRead([], false)
    case Failed => LinkRead([], true)
  }

  // The answers of n calls of the driver's Receive.
  function LinkReads(buffered: seq<byte>, steps: seq<ReadStep>, n: nat): (answers: seq<LinkRead>)
    requires |buffered| <= MAX_FRAME
    ensures |answers| == n
    decreases n
  {
    if n == 0 then []
    else
      var first := Receiver.Receive(buffered, steps);
      [AsRead(first.outcome)] + LinkReads(first.buffered, first.steps, n - 1)
  }

  // A read is idle exactly when the driver delivered no frame.
  lemma IdleMeansNoFrame(buffered: seq<byte>, steps: seq<ReadStep>)
    requires |buffered| <= MAX_FRAME
    ensures var outcome := Receiver.Receive(buffered, steps).outcome;
            && (AsRead(outcome).Idle() <==> Delivered(outcome) == [])
            && (!AsRead(outcome).Idle() ==> Delivered(outcome) == [AsRead(outcome).data])
  {
    match NextFrame(buffered)
    case Found(_, _) =>
    case NeedMore(rest) =>
      var now := rest + Receiver.Read(steps, MAX_FRAME - |rest|).data;
      if NextFrame(now).Found? {
        FoundIsFrame(now);
      }
  }

  // One call takes its frame, if it delivers one, off the front of all that is still to come.
  lemma {:induction false} CallTakes(buffered: seq<byte>, steps: seq<ReadStep>)
    requires |buffered| <= MAX_FRAME
    ensures var r := Receiver.Receive(buffered, steps);
            Yields(buffered + Pending(steps), Delivered(r.outcome), r.buffered + Pending(r.steps))
  {
    var r := Receiver.Receive(buffered, steps);
    ReceiveRefinesScan(buffered, steps);
    YieldsMore(buffered + r.taken, Delivered(r.outcome), r.buffered, Pending(r.steps));
    Assoc(buffered, r.taken, Pending(r.steps));
  }

  // The first answer that is not idle is the first frame of the stream, and what is still to
  // come after it is the rest of the frames.
  lemma {:induction false} FirstAnswer(buffered: seq<byte>, steps: seq<ReadStep>, n: nat, k: nat)
    requires |buffered| <= MAX_FRAME && k < n
    requires AllIdle(LinkReads(buffered, steps, n)[..k]) && !LinkReads(buffered, steps, n)[k].Idle()
    ensures var run := Calls(buffered, steps, k + 1);
            && Yields(buffered + Pending(steps), [LinkReads(buffered, steps, n)[k].data],
                run.buffered + Pending(run.steps))
            && Scan(buffered + Pending(steps)).frames != []
            && LinkReads(buffered, steps, n)[k].data == Scan(buffered + Pending(steps)).frames[0]
    decreases k
  {
    var first := Receiver.Receive(buffered, steps);
    var answers := LinkReads(buffered, steps, n);
    CallTakes(buffered, steps);
    IdleMeansNoFrame(buffered, steps);
    if k > 0 {
      var later := LinkReads(first.buffered, first.steps, n - 1);
      assert answers[..k][0] == answers[0];
      forall i | 0 <= i < k - 1 ensures later[i].Idle() {
        assert answers[..k][i + 1] == later[i];
      }
      FirstAnswer(first.buffered, first.steps, n - 1, k - 1);
      var frames := Scan(first.buffered + Pending(first.steps)).frames;
      assert [] + frames == frames;
    }
  }

  // A request over this link is answered by the next frame of the stream that has not been
  // delivered yet, and by no other.
  lemma {:induction false} RequestTakesNextFrame(json: Json, buffered: seq<byte>, steps: seq<ReadStep>, n: nat,
                                                 answers: seq<LinkRead>, outcome: RadioTransport.Outcome)
    requires |buffered| <= MAX_FRAME && answers <= LinkReads(buffered, steps, n)
    requires Explains(json, answers, outcome) && (outcome.Reply? || outcome.Undecodable?)
    ensures var frames := Scan(buffered + Pending(steps)).frames;
            && frames != []
            && (outcome.Reply? ==> Decode(json, frames[0]).result == Ok(outcome.message))
            && (outcome.Undecodable? ==> Decode(json, frames[0]).result.Err?)
  {
    var k := |answers| - 1;
    var all := LinkReads(buffered, steps, n);
    assert answers[..k] == all[..k] && answers[k] == all[k];
    FirstAnswer(buffered, steps, n, k);
  }

  // The errors that the base or a drone sees are those of the port, as far as it was read.
  lemma {:induction false} FailuresSeen(buffered: seq<byte>, steps: seq<ReadStep>, n: nat)
    requires |buffered| <= MAX_FRAME
    ensures FailedReads(LinkReads(buffered, steps, n)) + Receiver.Failures(Calls(buffered, steps, n).steps)
         == Receiver.Failures(steps)
    decreases n
  {
    if n > 0 {
      var first := Receiver.Receive(buffered, steps);
      var later := LinkReads(first.buffered, first.steps, n - 1);
      ReceiveKeepsFailures(buffered, steps);
      FailuresSeen(first.buffered, first.steps, n - 1);
      assert ([AsRead(first.outcome)] + later)[1..] == later;
    }
  }

  // ----- The base -----

  // What the base answers to a list of frames.
  function Replies(json: Json, frames: seq<seq<byte>>, given: Message -> string): seq<seq<byte>> {
    if frames == [] then []
    else
      var first := Answer(json, LinkRead(frames[0], false), given);
      (if first.Some? then [first.value] else []) + Replies(json, frames[1..], given)
  }

  lemma {:induction false} AnswersFirst(json: Json, first: LinkRead, later: seq<LinkRead>, given: Message -> string)
    ensures var answer := Answer(json, first, given);
            Answers(json, [first] + later, given)
                == (if answer.Some? then [answer.value] else []) + Answers(json, later, given)
    decreases |later|
  {
    var all := [first] + later;
    var answer := Answer(json, first, given);
    var one := if answer.Some? then [answer.value] else [];
    if later == [] {
      assert all[..0] == [] && all[0] == first;
      assert [] + one == one == one + [];
    } else {
      var n := |later| - 1;
      assert all[..|all| - 1] == [first] + later[..n] && all[|all| - 1] == later[n];
      AnswersFirst(json, first, later[..n], given);
      var last := Answer(json, later[n], given);
      Assoc(one, Answers(json, later[..n], given), if last.Some? then [last.value] else []);
    }
  }

  // Serving the link's answers is answering the frames that the driver delivers.
  lemma {:induction false} ServesDelivered(json: Json, buffered: seq<byte>, steps: seq<ReadStep>, n: nat,
      given: Message -> string)
    requires |buffered| <= MAX_FRAME
    ensures Answers(json, LinkReads(buffered, steps, n), given)
        == Replies(json, Calls(buffered, steps, n).delivered, given)
    decreases n
  {
    if n > 0 {
      var first := Receiver.Receive(buffered, steps);
      var read, later := AsRead(first.outcome), LinkReads(first.buffered, first.steps, n - 1);
      var delivered := Calls(first.buffered, first.steps, n - 1).delivered;
      AnswersFirst(json, read, later, given);
      ServesDelivered(json, first.buffered, first.steps, n - 1, given);
      IdleMeansNoFrame(buffered, steps);
      if read.Idle() {
        assert [] + delivered == delivered;
      } else {
        assert ([read.data] + delivered)[1..] == delivered;
        assert read == LinkRead(read.data, false);
      }
    }
  }

  // However the port cuts the stream, the base answers exactly the frames of the stream, in
  // order.
  lemma {:induction false} BaseAnswersStream(json: Json, steps: seq<ReadStep>, n: nat, given: Message -> string)
    requires Work([], steps) <= n
    ensures Answers(json, LinkReads([], steps, n), given) == Replies(json, Scan(Pending(steps)).frames, given)
  {
    EveryFrameDelivered(steps, n);
    ServesDelivered(json, [], steps, n, given);
  }
}
