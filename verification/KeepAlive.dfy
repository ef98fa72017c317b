/** The two ends of the radio conversation as they are coded: one tick of the drone's
    keepalive goroutine, and the base's receive loop. */
module KeepAlive {
  import opened Bytes
  import opened Codec
  import opened Contexts
  import opened Handlers
  import opened Options
  import opened RadioTransport
  import opened Seqs

  // ----- The drone -----

  datatype Round =
    | Skipped                      // WiFi is up and the radio need not be used
    | PingFailed                   // the transport reported an error
    | PongRefused(reply: Message)
    | ConfirmationFailed
    | AckRefused(reply: Message)
    | Confirmed

  // What a round that ends this way has put on the air after `sent`.
  ghost predicate Transmitted(json: Json, id: int, round: Round, before: seq<seq<byte>>, after: seq<seq<byte>>) {
    var ping, confirmation := Encode(json, Message(id, "ping", "")),
                              Encode(json, Message(id, "debug_log", "radio ping pong confirmed"));
    match round
    case Skipped => after == before
    case PingFailed => after == before || (ping.Ok? && after == before + [ping.value])
    case PongRefused(_) => ping.Ok? && after == before + [ping.value]
    case ConfirmationFailed =>
      ping.Ok? && (after == before + [ping.value]
                   || (confirmation.Ok? && after == before + [ping.value] + [confirmation.value]))
    case _ => ping.Ok? && confirmation.Ok? && after == before + [ping.value] + [confirmation.value]
  }

  // What the drone must have read, first in answer to the ping and then in answer to the
  // confirmation, for its round to end this way.
  ghost predicate Justified(json: Json, id: int, round: Round, first: seq<LinkRead>, second: seq<LinkRead>) {
    var pong, ack := Message(id, "ping", "pong"), Message(id, "debug_log", "ok");
    match round
    case Skipped => first == [] && second == []
    case PingFailed => second == [] && (AllIdle(first) || Explains(json, first, Undecodable))
    case PongRefused(m) => second == [] && Explains(json, first, Outcome.Reply(m)) && m != pong
    case ConfirmationFailed =>
      Explains(json, first, Outcome.Reply(pong)) && (AllIdle(second) || Explains(json, second, Undecodable))
    case AckRefused(m) =>
      Explains(json, first, Outcome.Reply(pong)) && Explains(json, second, Outcome.Reply(m)) && m != ack
    case Confirmed =>
      Explains(json, first, Outcome.Reply(pong)) && Explains(json, second, Outcome.Reply(ack))
  }

  method KeepAliveRound(json: Json, link: RadioLink, clock: Clock, ctx: Context, timeout: int, retryInterval: int,
                        id: int, wifiConnected: bool, alwaysUse: bool)
    returns (round: Round, first: seq<LinkRead>, second: seq<LinkRead>)
    modifies link`coming, link`answers, link`sent, clock, ctx
    ensures round.Skipped? <==> wifiConnected && !alwaysUse
    ensures Transmitted(json, id, round, old(link.sent), link.sent)
    ensures Justified(json, id, round, first, second)
    ensures round.PingFailed? || round.ConfirmationFailed? ==>
              || Encode(json, if round.PingFailed? then Ping(id) else Confirmation(id)).Err? || link.sendFails
              || ctx.checks == 0 || clock.now > old(clock.now) + timeout
              || Explains(json, if round.PingFailed? then first else second, Undecodable)
    ensures |first| + |second| <= 2 * PollBound(timeout, EffectiveRetry(retryInterval))
    ensures old(link.coming) <= first + second + link.coming
  {
    first, second := [], [];
    WithinBound(0, 0, timeout, EffectiveRetry(retryInterval));
    assert [] + [] + link.coming == link.coming;
    if wifiConnected && !alwaysUse {
      return Skipped, first, second;
    }
    link.answers := [];
    var ping := Ping(id);
    var response := Send(json, link, clock, ctx, timeout, retryInterval, ping);
    first := link.answers;
    assert first + second == first;
    if !response.Reply? {
      return PingFailed, first, second;
    }
    if response.message.id != ping.id || response.message.cmd != ping.cmd || response.message.data != "pong" {
      return PongRefused(response.message), first, second;
    }
    link.answers := [];
    ghost var left := link.coming;
    var confirmation := Confirmation(id);
    var answer := Send(json, link, clock, ctx, timeout, retryInterval, confirmation);
    second := link.answers;
    Prefixes(old(link.coming), first, left, second, link.coming);
    if !answer.Reply? {
      return ConfirmationFailed, first, second;
    }
    if answer.message.id != confirmation.id || answer.message.cmd != confirmation.cmd || answer.message.data != "ok" {
      return AckRefused(answer.message), first, second;
    }
    return Confirmed, first, second;
  }

  lemma Prefixes<T>(all: seq<T>, first: seq<T>, left: seq<T>, second: seq<T>, rest: seq<T>)
    requires all <= first + left && left <= second + rest
    ensures all <= first + second + rest
  {
    assert first + left <= first + (second + rest);
    assert first + (second + rest) == first + second + rest;
  }

  // ----- The base -----

  // The frame that one read makes the base send.
  function Answer(json: Json, read: LinkRead, given: Message -> string): Option<seq<byte>> {
    if read.Idle() then None
    else
      match Decode(json, read.data).result
      case Err(_) => None
      case Ok(m) =>
        match Dispatch(m, given(m))
        case None => None
        case Some(reply) => Framing(Encode(json, reply))
  }

  function Framing(r: Result<seq<byte>>): Option<seq<byte>> {
    match r case Ok(frame) => Some(frame) case Err(_) => None
  }

  function Answers(json: Json, taken: seq<LinkRead>, given: Message -> string): seq<seq<byte>> {
    if taken == [] then []
    else
      var most, last := taken[..|taken| - 1], Answer(json, taken[|taken| - 1], given);
      Answers(json, most, given) + if last.Some? then [last.value] else []
  }

  // How many reads have failed since the last frame; an empty read is not a frame.
  function Failures(taken: seq<LinkRead>): nat {
    if taken == [] then 0
    else
      var most, last := taken[..|taken| - 1], taken[|taken| - 1];
      if last.failed then Failures(most) + 1 else if last.data == [] then Failures(most) else 0
  }

  // How many of these reads failed.
  function FailedReads(taken: seq<LinkRead>): nat {
    if taken == [] then 0 else (if taken[0].failed then 1 else 0) + FailedReads(taken[1..])
  }

  lemma {:induction false} FailedReadsOne(taken: seq<LinkRead>, last: LinkRead)
    ensures FailedReads(taken + [last]) == FailedReads(taken) + if last.failed then 1 else 0
  {
    if taken == [] {
      assert [] + [last] == [last] && [last][1..] == [];
    } else {
      assert (taken + [last])[1..] == taken[1..] + [last];
      FailedReadsOne(taken[1..], last);
    }
  }

  // The count is that of the failed reads since the last frame, or since the beginning; reads
  // that brought nothing neither count nor end it.
  lemma {:induction false} FailuresSince(before: seq<LinkRead>, after: seq<LinkRead>)
    requires before == [] || !before[|before| - 1].Idle()
    requires AllIdle(after)
    ensures Failures(before + after) == FailedReads(after)
    decreases |after|
  {
    if after == [] {
      assert before + after == before;
    } else {
      var n := |after| - 1;
      var most, last := after[..n], after[n];
      FailuresSince(before, most);
      FailedReadsOne(most, last);
      assert after == most + [last] && last.Idle();
      Assoc(before, most, [last]);
      FailuresOne(before + most, last);
    }
  }

  lemma {:induction false} FailuresOne(taken: seq<LinkRead>, last: LinkRead)
    requires last.Idle()
    ensures Failures(taken + [last]) == Failures(taken) + if last.failed then 1 else 0
  {
    var all := taken + [last];
    assert all[..|all| - 1] == taken && all[|all| - 1] == last;
  }

  lemma HeadMoves<T>(a: seq<T>, b: seq<T>)
    requires b != []
    ensures a + b == (a + [b[0]]) + b[1..]
  {
  }

  // One read more.
  lemma {:induction false} ServedOne(json: Json, before: seq<LinkRead>, read: LinkRead, given: Message -> string,
                                     sent: seq<seq<byte>>)
    ensures var answer := Answer(json, read, given);
            sent + Answers(json, before + [read], given)
              == (sent + Answers(json, before, given)) + if answer.Some? then [answer.value] else []
    ensures Failures(before + [read])
         == if read.failed then Failures(before) + 1 else if read.data == [] then Failures(before) else 0
  {
    assert (before + [read])[..|before + [read]| - 1] == before;
    var answer := Answer(json, read, given);
    Assoc(sent, Answers(json, before, given), if answer.Some? then [answer.value] else []);
  }

  // Serves until the context is done, or until there is nothing more to read.
  method ServeRadio(json: Json, link: RadioLink, ctx: Context, given: Message -> string)
    returns (served: seq<LinkRead>, consecutiveErrors: nat)
    modifies link, ctx
    ensures old(link.coming) == served + link.coming
    ensures link.sent == old(link.sent) + if link.sendFails then [] else Answers(json, served, given)
    ensures link.sendFails == old(link.sendFails)
    ensures link.coming == [] || old(ctx.checks) == |served|
    ensures ctx.checks == old(ctx.checks) - |served|
    ensures consecutiveErrors == Failures(served)
  {
    served, consecutiveErrors := [], 0;
    assert old(link.sent) + [] == old(link.sent);
    while link.coming != []
      invariant old(link.coming) == served + link.coming && link.sendFails == old(link.sendFails)
      invariant link.sent == old(link.sent) + if link.sendFails then [] else Answers(json, served, given)
      invariant consecutiveErrors == Failures(served) && ctx.checks == old(ctx.checks) - |served|
      decreases |link.coming|
    {
      var done := ctx.Done();
      if done {
        return;
      }
      ghost var before := served;
      HeadMoves(served, link.coming);
      var read := link.Receive();
      served := served + [read];
      ServedOne(json, before, read, given, old(link.sent));
      if read.failed {
        consecutiveErrors := consecutiveErrors + 1;
        continue;
      }
      if read.data == [] {
        continue;
      }
      consecutiveErrors := 0;
      ServeFrame(json, link, read, given);
    }
  }

  // What the loop does with a frame.
  method ServeFrame(json: Json, link: RadioLink, read: LinkRead, given: Message -> string)
    requires !read.Idle()
    modifies link`sent
    ensures var answer := Answer(json, read, given);
            link.sent == old(link.sent) + if answer.Some? && !link.sendFails then [answer.value] else []
  {
    assert old(link.sent) + [] == old(link.sent);
    var decoded := Decode(json, read.data).result;
    if decoded.Err? {
      return;
    }
    var response := Dispatch(decoded.value, given(decoded.value));
    if response.None? {
      return;
    }
    var payload := Encode(json, response.value);
    if payload.Err? {
      return;
    }
    var ok := link.Send(payload.value);
  }

  // The base as the drones see it: a message that arrives whole is answered by the reply of
  // its own handler, framed, and by nothing else.
  lemma AnswersWhatWasSent(json: Json, m: Message, given: Message -> string)
    requires json.Faithful() && Encode(json, m).Ok?
    ensures var reply := Dispatch(m, given(m));
            Answer(json, LinkRead(Encode(json, m).value, false), given)
              == if reply.None? then None else Framing(Encode(json, reply.value))
  {
    DecodeEncode(json, m, []);
    assert Encode(json, m).value + [] == Encode(json, m).value;
  }

  // One exchange, end to end: what the base answers to a drone's ping is what makes the
  // drone go on to its confirmation, and what it answers to that ends the round.
  lemma ExchangeConfirms(json: Json, id: int, given: Message -> string, idle: seq<LinkRead>)
    requires json.Faithful() && AllIdle(idle)
    requires Encode(json, Ping(id)).Ok? && Encode(json, Pong(id)).Ok?
    requires Encode(json, Confirmation(id)).Ok? && Encode(json, Ack(id)).Ok?
    ensures var pong := Answer(json, LinkRead(Encode(json, Ping(id)).value, false), given);
            var ack := Answer(json, LinkRead(Encode(json, Confirmation(id)).value, false), given);
            pong.Some? && ack.Some? &&
            Justified(json, id, Confirmed, idle + [LinkRead(pong.value, false)], idle + [LinkRead(ack.value, false)])
  {
    DispatchCauses(Ping(id), given(Ping(id)), id);
    DispatchCauses(Confirmation(id), given(Confirmation(id)), id);
    AnswersWhatWasSent(json, Ping(id), given);
    AnswersWhatWasSent(json, Confirmation(id), given);
    ReadsBack(json, Pong(id), idle);
    ReadsBack(json, Ack(id), idle);
  }

  lemma ReadsBack(json: Json, m: Message, idle: seq<LinkRead>)
    requires json.Faithful() && AllIdle(idle) && Encode(json, m).Ok?
    ensures Explains(json, idle + [LinkRead(Encode(json, m).value, false)], Outcome.Reply(m))
  {
    DecodeEncode(json, m, []);
    var frame := Encode(json, m).value;
    assert frame + [] == frame;
    var answers := idle + [LinkRead(frame, false)];
    assert answers[..|answers| - 1] == idle;
  }
}
