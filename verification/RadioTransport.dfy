/** One request over the radio: send it, then poll for an answer until a deadline. */
module RadioTransport {
  import opened Bytes
  import opened Codec
  import opened Contexts

  // What the link answers to one Receive.
  datatype LinkRead = LinkRead(data: seq<byte>, failed: bool) {
    predicate Idle() {
      failed || data == []
    }
  }

  // A radio link, with the answers it will give.
  class RadioLink {
    var coming: seq<LinkRead>
    var sendFails: bool
    var sent: seq<seq<byte>>
    // How often Receive has been called, and the answers it gave.
    var answers: seq<LinkRead>

    constructor (coming: seq<LinkRead>, sendFails: bool)
      ensures this.coming == coming && this.sendFails == sendFails && sent == [] && answers == []
    {
      this.coming, this.sendFails := coming, sendFails;
      sent, answers := [], [];
    }

    method Send(data: seq<byte>) returns (ok: bool)
      modifies `sent
      ensures ok == !sendFails && sent == if ok then old(sent) + [data] else old(sent)
    {
      ok := !sendFails;
      if ok {
        sent := sent + [data];
      }
    }

    // Nothing, when the answers run out.
    method Receive() returns (read: LinkRead)
      modifies `coming, `answers
      ensures answers == old(answers) + [read]
      ensures if old(coming) == [] then read == LinkRead([], false) && coming == []
              else read == old(coming)[0] && coming == old(coming)[1..]
      ensures old(answers) + old(coming) <= answers + coming
    {
      read := LinkRead([], false);
      ghost var all := answers + coming;
      if coming != [] {
        read := coming[0];
        coming := coming[1..];
      }
      answers := answers + [read];
      assert all <= answers + coming;
    }
  }

  // A clock that never goes back.  Each reading, and each sleep beyond what was asked for,
  // may take time.
  class Clock {
    var now: int
    var delays: seq<nat>

    constructor (now: int, delays: seq<nat>)
      ensures this.now == now && this.delays == delays
    {
      this.now, this.delays := now, delays;
    }

    method Delay()
      modifies this
      ensures now >= old(now)
    {
      if delays != [] {
        now := now + delays[0];
        delays := delays[1..];
      }
    }

    method Now() returns (t: int)
      modifies this
      ensures t == now >= old(now)
    {
      Delay();
      t := now;
    }

    method Sleep(duration: nat)
      modifies this
      ensures now >= old(now) + duration
    {
      now := now + duration;
      Delay();
    }
  }

  datatype Outcome = Reply(message: Message) | NotEncoded | NotSent | ReceiveFailed | TimedOut | Undecodable | Cancelled

  // In nanoseconds.
  const DEFAULT_RETRY := 50_000_000

  function EffectiveRetry(retryInterval: int): (r: int)
    ensures retryInterval > 0 ==> r == retryInterval
    ensures retryInterval <= 0 ==> r == 50_000_000
  {
    if retryInterval <= 0 then DEFAULT_RETRY else retryInterval
  }

  // The most calls of Receive that a timeout leaves time for.
  function PollBound(timeout: int, retry: int): int
    requires retry > 0
  {
    if timeout < 0 then 1 else timeout / retry + 2
  }

  lemma WithinBound(polls: nat, slept: int, timeout: int, retry: int)
    requires retry > 0 && slept == polls * retry && (polls == 0 || slept - retry <= timeout)
    ensures polls + 1 <= PollBound(timeout, retry)
  {
    assert (polls - 1) * retry == slept - retry;
    var before := if polls == 0 then 0 else polls - 1;
    AtLeastZero(before, retry);
    if timeout >= 0 && before > timeout / retry {
      ProductExceeds(before, timeout, retry);
    }
  }

  lemma AtLeastZero(k: nat, r: nat)
    ensures k * r >= 0
  {
  }

  lemma ProductExceeds(k: int, t: nat, r: int)
    requires r > 0 && k > t / r
    ensures k * r > t
  {
    var q := t / r;
    assert t < (q + 1) * r;
    AtLeastZero(k - (q + 1), r);
    assert (k - (q + 1)) * r == k * r - (q + 1) * r;
  }

  // The time slept after so many polls.
  function Slept(polls: nat, retry: int): int {
    if polls == 0 then 0 else Slept(polls - 1, retry) + retry
  }

  lemma {:induction false} SleptIs(polls: nat, retry: int)
    ensures Slept(polls, retry) == polls * retry
  {
    if polls > 0 {
      SleptIs(polls - 1, retry);
      Distribute(polls - 1, retry);
    }
  }

  lemma MayPoll(polls: nat, timeout: int, retry: int)
    requires retry > 0 && (polls == 0 || Slept(polls, retry) - retry <= timeout)
    ensures polls + 1 <= PollBound(timeout, retry)
  {
    SleptIs(polls, retry);
    WithinBound(polls, Slept(polls, retry), timeout, retry);
  }

  lemma Distribute(k: int, r: int)
    ensures (k + 1) * r == k * r + r
  {
  }

  // All polls but the last found nothing; the last one found something exactly when the
  // outcome is a frame's, and then it is that frame's.
  ghost predicate Explains(json: Json, answers: seq<LinkRead>, outcome: Outcome) {
    match outcome
    case Reply(m) =>
      answers != [] && AllIdle(answers[..|answers| - 1]) && !answers[|answers| - 1].Idle()
      && Decode(json, answers[|answers| - 1].data).result == Ok(m)
    case Undecodable =>
      answers != [] && AllIdle(answers[..|answers| - 1]) && !answers[|answers| - 1].Idle()
      && Decode(json, answers[|answers| - 1].data).result.Err?
    case NotEncoded => answers == []
    case NotSent => answers == []
    case ReceiveFailed => AllIdle(answers) && answers != [] && answers[|answers| - 1].failed
    case TimedOut => AllIdle(answers) && answers != [] && !answers[|answers| - 1].failed
    case Cancelled => AllIdle(answers)
  }

  ghost predicate AllIdle(answers: seq<LinkRead>) {
    forall i :: 0 <= i < |answers| ==> answers[i].Idle()
  }

  method Send(json: Json, link: RadioLink, clock: Clock, ctx: Context, timeout: int, retryInterval: int, m: Message)
    returns (outcome: Outcome)
    requires link.answers == []
    modifies link`coming, link`answers, link`sent, clock, ctx
    ensures |link.answers| <= if timeout < 0 then 1 else timeout / EffectiveRetry(retryInterval) + 2
    ensures ctx.checks == if outcome.Cancelled? then 0 else old(ctx.checks) - |link.answers|
    ensures outcome.Cancelled? ==> old(ctx.checks) == |link.answers|
    ensures Explains(json, link.answers, outcome)
    ensures old(link.coming) <= link.answers + link.coming
    ensures clock.now >= old(clock.now)
    ensures outcome.TimedOut? || outcome.ReceiveFailed? ==> clock.now > old(clock.now) + timeout
    ensures outcome.NotEncoded? <==> Encode(json, m).Err?
    ensures outcome.NotSent? <==> Encode(json, m).Ok? && link.sendFails
    ensures link.sent == if outcome.NotEncoded? || outcome.NotSent? then old(link.sent)
                         else old(link.sent) + [Encode(json, m).value]
  {
    var payload := Encode(json, m);
    assert [] + link.coming == link.coming;
    WithinBound(0, 0, timeout, EffectiveRetry(retryInterval));
    if payload.Err? {
      return NotEncoded;
    }
    var ok := link.Send(payload.value);
    if !ok {
      return NotSent;
    }
    var start := clock.Now();
    outcome := Poll(json, link, clock, ctx, start, timeout, EffectiveRetry(retryInterval));
  }

  // The loop of Send, which has set its deadline at start + timeout.
  method Poll(json: Json, link: RadioLink, clock: Clock, ctx: Context, start: int, timeout: int, retry: int)
    returns (outcome: Outcome)
    requires link.answers == [] && clock.now >= start && retry > 0
    modifies link`coming, link`answers, clock, ctx
    ensures |link.answers| <= if timeout < 0 then 1 else timeout / retry + 2
    ensures ctx.checks == if outcome.Cancelled? then 0 else old(ctx.checks) - |link.answers|
    ensures outcome.Cancelled? ==> old(ctx.checks) == |link.answers|
    ensures Explains(json, link.answers, outcome) && !outcome.NotEncoded? && !outcome.NotSent?
    ensures old(link.coming) <= link.answers + link.coming
    ensures clock.now >= old(clock.now)
    ensures outcome.TimedOut? || outcome.ReceiveFailed? ==> clock.now > start + timeout
  {
    var deadline := start + timeout;
    assert [] + link.coming == link.coming;
    ghost var polls := 0;
    while true
      invariant polls == |link.answers| && AllIdle(link.answers) && ctx.checks == old(ctx.checks) - polls
      invariant old(link.coming) <= link.answers + link.coming
      invariant clock.now >= old(clock.now)
      invariant clock.now >= start + Slept(polls, retry)
      invariant polls == 0 || Slept(polls, retry) - retry <= timeout
      decreases deadline - clock.now
    {
      MayPoll(polls, timeout, retry);
      var done := ctx.Done();
      if done {
        return Cancelled;
      }
      ghost var was := link.answers;
      var read := link.Receive();
      assert link.answers[..|link.answers| - 1] == was;
      if read.Idle() {
        var now := clock.Now();
        if now > deadline {
          return if read.failed then ReceiveFailed else TimedOut;
        }
        clock.Sleep(retry);
        polls := polls + 1;
        continue;
      }
      var decoded := Decode(json, read.data);
      return match decoded.result case Ok(reply) => Reply(reply) case Err(_) => Undecodable;
    }
  }
}
