/** Any number of drones keeping in touch with one base by radio, in every interleaving.

    Everything one station sends is heard by all the others, late, out of order or never,
    but at most once by each.  Noise may come in between. */
module RadioLoop {
  import opened Codec
  import opened Handlers
  import opened Options

  // Where a drone's keepalive goroutine is in its round.
  datatype Phase = Idle | AwaitPong | Confirming | AwaitAck

  datatype Packet = Sound(message: Message) | Garbled

  // How often each thing has happened, for each drone.
  datatype Tally = Tally(
    pingsSent: multiset<int>, pingsReceived: multiset<int>,
    pongsSent: multiset<int>, pongsTaken: multiset<int>,
    confirmationsSent: multiset<int>, confirmationsReceived: multiset<int>,
    acksSent: multiset<int>, confirmed: multiset<int>)

  // toBase and toDrone hold what is in the air or waiting in a receiver.
  datatype State = State(
    phases: map<int, Phase>,
    toBase: multiset<Packet>,
    toDrone: map<int, multiset<Packet>>,
    tally: Tally)

  // aired: the message went out; ok: the link reported no error.  A place of None is the base.
  datatype Step =
    | Tick(drone: int, aired: bool, ok: bool)
    | Hear(drone: int, packet: Packet)
    | Confirm(drone: int, aired: bool, ok: bool)
    | GiveUp(drone: int)
    | Serve(packet: Packet, given: string, aired: bool)
    | Lose(place: Option<int>, packet: Packet)
    | Noise(place: Option<int>)

  const SILENCE := Tally(multiset{}, multiset{}, multiset{}, multiset{}, multiset{}, multiset{}, multiset{}, multiset{})

  ghost predicate Initial(s: State) {
    && s.toBase == multiset{} && s.tally == SILENCE && s.toDrone.Keys == s.phases.Keys
    && (forall d :: d in s.phases ==> s.phases[d] == Idle && s.toDrone[d] == multiset{})
  }

  ghost predicate Waiting(s: State, place: Option<int>, p: Packet) {
    match place
    case None => p in s.toBase
    case Some(d) => d in s.toDrone && p in s.toDrone[d]
  }

  ghost predicate Enabled(s: State, step: Step) {
    match step
    case Tick(d, aired, ok) => d in s.phases && s.phases[d] == Idle && (ok ==> aired)
    case Hear(d, p) => d in s.phases && s.phases[d] in {AwaitPong, AwaitAck} && Waiting(s, Some(d), p)
    case Confirm(d, aired, ok) => d in s.phases && s.phases[d] == Confirming && (ok ==> aired)
    case GiveUp(d) => d in s.phases && s.phases[d] in {AwaitPong, AwaitAck}
    case Serve(p, _, _) => p in s.toBase
    case Lose(place, p) => Waiting(s, place, p)
    case Noise(place) => place.None? || place.value in s.toDrone
  }

  // Everyone in the audience hears p.
  function Broadcast(inboxes: map<int, multiset<Packet>>, audience: set<int>, p: Packet)
    : (heard: map<int, multiset<Packet>>)
    ensures heard.Keys == inboxes.Keys
  {
    map d | d in inboxes :: if d in audience then inboxes[d] + multiset{p} else inboxes[d]
  }

  // A drone puts m on the air.
  function Air(s: State, d: int, m: Message): State {
    s.(toBase := s.toBase + multiset{Sound(m)},
       toDrone := Broadcast(s.toDrone, s.toDrone.Keys - {d}, Sound(m)))
  }

  function Consume(s: State, d: int, p: Packet): State
    requires d in s.toDrone
  {
    s.(toDrone := s.toDrone[d := s.toDrone[d] - multiset{p}])
  }

  function ApplyTick(s: State, d: int, aired: bool, ok: bool): State {
    var next := s.(phases := s.phases[d := if ok then AwaitPong else Idle]);
    if !aired then next
    else Air(next, d, Ping(d)).(tally := s.tally.(pingsSent := s.tally.pingsSent + multiset{d}))
  }

  function ApplyConfirm(s: State, d: int, aired: bool, ok: bool): State {
    var next := s.(phases := s.phases[d := if ok then AwaitAck else Idle]);
    if !aired then next
    else Air(next, d, Confirmation(d)).(tally := s.tally.(confirmationsSent := s.tally.confirmationsSent + multiset{d}))
  }

  // The drone takes the first packet for the answer, and then validates it.
  function ApplyHear(s: State, d: int, p: Packet): State
    requires d in s.phases && d in s.toDrone
  {
    var next := Consume(s, d, p);
    if s.phases[d] == AwaitPong && p == Sound(Pong(d)) then
      next.(phases := s.phases[d := Confirming], tally := s.tally.(pongsTaken := s.tally.pongsTaken + multiset{d}))
    else if s.phases[d] == AwaitAck && p == Sound(Ack(d)) then
      next.(phases := s.phases[d := Idle], tally := s.tally.(confirmed := s.tally.confirmed + multiset{d}))
    else
      next.(phases := s.phases[d := Idle])
  }

  // What the base writes down when a request arrives, and when its reply has gone out.
  function NoteRequest(t: Tally, m: Message): Tally {
    if m.cmd == "ping" then t.(pingsReceived := t.pingsReceived + multiset{m.id})
    else if m.cmd == "debug_log" then t.(confirmationsReceived := t.confirmationsReceived + multiset{m.id})
    else t
  }

  function NoteReply(t: Tally, m: Message): Tally {
    if m == Pong(m.id) then t.(pongsSent := t.pongsSent + multiset{m.id})
    else if m == Ack(m.id) then t.(acksSent := t.acksSent + multiset{m.id})
    else t
  }

  function ApplyServe(s: State, p: Packet, given: string, aired: bool): State {
    var next := s.(toBase := s.toBase - multiset{p});
    if p.Garbled? then next
    else
      var noted := next.(tally := NoteRequest(s.tally, p.message));
      match Dispatch(p.message, given)
      case None => noted
      case Some(reply) =>
        if !aired then noted
        else
          noted.(toDrone := Broadcast(s.toDrone, s.toDrone.Keys, Sound(reply)), tally := NoteReply(noted.tally, reply))
  }

  function ApplyLose(s: State, place: Option<int>, p: Packet): State
    requires place.Some? ==> place.value in s.toDrone
  {
    if place.None? then s.(toBase := s.toBase - multiset{p}) else Consume(s, place.value, p)
  }

  function ApplyNoise(s: State, place: Option<int>): State
    requires place.Some? ==> place.value in s.toDrone
  {
    if place.None? then s.(toBase := s.toBase + multiset{Garbled})
    else s.(toDrone := s.toDrone[place.value := s.toDrone[place.value] + multiset{Garbled}])
  }

  function Apply(s: State, step: Step): State
    requires Enabled(s, step) && s.toDrone.Keys == s.phases.Keys
  {
    match step
    case Tick(d, aired, ok) => ApplyTick(s, d, aired, ok)
    case Hear(d, p) => ApplyHear(s, d, p)
    case Confirm(d, aired, ok) => ApplyConfirm(s, d, aired, ok)
    case GiveUp(d) => s.(phases := s.phases[d := Idle])
    case Serve(p, given, aired) => ApplyServe(s, p, given, aired)
    case Lose(place, p) => ApplyLose(s, place, p)
    case Noise(place) => ApplyNoise(s, place)
  }

  // A drone waits for an answer exactly if the link reported no error; what has gone on the air
  // counts as sent, whatever the link reported.
  lemma SendDecides(s: State, d: int, aired: bool, ok: bool)
    requires s.toDrone.Keys == s.phases.Keys
    ensures Enabled(s, Tick(d, aired, ok)) ==>
              var r := Apply(s, Tick(d, aired, ok));
              && r.phases == s.phases[d := if ok then AwaitPong else Idle]
              && r.tally.pingsSent == s.tally.pingsSent + (if aired then multiset{d} else multiset{})
              && r.toBase == s.toBase + (if aired then multiset{Sound(Message(d, "ping", ""))} else multiset{})
    ensures Enabled(s, Confirm(d, aired, ok)) ==>
              var r := Apply(s, Confirm(d, aired, ok));
              && r.phases == s.phases[d := if ok then AwaitAck else Idle]
              && r.tally.confirmationsSent == s.tally.confirmationsSent + (if aired then multiset{d} else multiset{})
              && r.toBase == s.toBase + (if aired then multiset{Sound(Confirmation(d))} else multiset{})
  {
    assert s.tally.pingsSent + multiset{} == s.tally.pingsSent && s.toBase + multiset{} == s.toBase;
    assert s.tally.confirmationsSent + multiset{} == s.tally.confirmationsSent;
  }

  // What a drone makes of the first packet it hears: only its own pong makes it go on, only its
  // own acknowledgement confirms the round, and after anything else the round is over.
  lemma HearDecides(s: State, d: int, p: Packet)
    requires Enabled(s, Hear(d, p)) && s.toDrone.Keys == s.phases.Keys
    ensures var r := Apply(s, Hear(d, p));
            var taken, confirmed := s.phases[d] == AwaitPong && p == Sound(Message(d, "ping", "pong")),
                                    s.phases[d] == AwaitAck && p == Sound(Message(d, "debug_log", "ok"));
            && r.phases == s.phases[d := if taken then Confirming else Idle]
            && r.tally.pongsTaken == s.tally.pongsTaken + (if taken then multiset{d} else multiset{})
            && r.tally.confirmed == s.tally.confirmed + (if confirmed then multiset{d} else multiset{})
            && r.toBase == s.toBase && r.toDrone == s.toDrone[d := s.toDrone[d] - multiset{p}]
  {
    assert s.tally.pongsTaken + multiset{} == s.tally.pongsTaken;
    assert s.tally.confirmed + multiset{} == s.tally.confirmed;
  }

  // What goes on the air reaches the base and every drone but the sender, and what the base
  // sends reaches every drone.
  lemma EveryoneElseHears(s: State, d: int, e: int, m: Message)
    requires e in s.toDrone
    ensures Air(s, d, m).toBase == s.toBase + multiset{Sound(m)}
    ensures Air(s, d, m).toDrone[e] == s.toDrone[e] + (if e == d then multiset{} else multiset{Sound(m)})
    ensures Broadcast(s.toDrone, s.toDrone.Keys, Sound(m))[e] == s.toDrone[e] + multiset{Sound(m)}
  {
    assert s.toDrone[e] + multiset{} == s.toDrone[e];
  }

  // Whoever waits can give up, and then begin another round.
  lemma GivesUp(s: State, d: int)
    requires Enabled(s, GiveUp(d)) && s.toDrone.Keys == s.phases.Keys
    ensures var r := Apply(s, GiveUp(d)); r == s.(phases := s.phases[d := Idle]) && Enabled(r, Tick(d, true, true))
  {
  }

  // ----- The invariant -----

  // Only drones speak to the base, and they say two things.
  ghost predicate Wellformed(s: State) {
    s.toDrone.Keys == s.phases.Keys && Requests(s.toBase)
  }

  ghost predicate Requests(packets: multiset<Packet>) {
    forall p :: p in packets && p.Sound? ==> IsRequest(p.message)
  }

  predicate IsRequest(m: Message) {
    m == Ping(m.id) || m == Confirmation(m.id)
  }

  lemma MoreRequests(packets: multiset<Packet>, m: Message)
    requires Requests(packets) && IsRequest(m)
    ensures Requests(packets + multiset{Sound(m)})
  {
  }

  lemma FewerRequests(packets: multiset<Packet>, p: Packet)
    requires Requests(packets)
    ensures Requests(packets - multiset{p})
  {
  }

  lemma TickKeepsWellformed(s: State, d: int, aired: bool, ok: bool)
    requires Wellformed(s) && d in s.phases
    ensures Wellformed(ApplyTick(s, d, aired, ok))
  {
    MoreRequests(s.toBase, Ping(d));
    assert aired ==> ApplyTick(s, d, aired, ok).toBase == s.toBase + multiset{Sound(Ping(d))};
  }

  lemma ConfirmKeepsWellformed(s: State, d: int, aired: bool, ok: bool)
    requires Wellformed(s) && d in s.phases
    ensures Wellformed(ApplyConfirm(s, d, aired, ok))
  {
    MoreRequests(s.toBase, Confirmation(d));
    assert aired ==> ApplyConfirm(s, d, aired, ok).toBase == s.toBase + multiset{Sound(Confirmation(d))};
  }

  lemma HearKeepsWellformed(s: State, d: int, p: Packet)
    requires Wellformed(s) && d in s.phases
    ensures Wellformed(ApplyHear(s, d, p))
  {
    assert ApplyHear(s, d, p).toBase == s.toBase;
  }

  lemma ServeKeepsWellformed(s: State, p: Packet, given: string, aired: bool)
    requires Wellformed(s)
    ensures Wellformed(ApplyServe(s, p, given, aired))
  {
    FewerRequests(s.toBase, p);
    assert ApplyServe(s, p, given, aired).toBase == s.toBase - multiset{p};
  }

  lemma AccidentKeepsWellformed(s: State, place: Option<int>, p: Packet)
    requires Wellformed(s) && (place.Some? ==> place.value in s.toDrone)
    ensures Wellformed(ApplyLose(s, place, p)) && Wellformed(ApplyNoise(s, place))
  {
    FewerRequests(s.toBase, p);
  }

  lemma StepKeepsWellformed(s: State, step: Step)
    requires Wellformed(s) && Enabled(s, step)
    ensures Wellformed(Apply(s, step))
  {
    match step
    case Tick(d, aired, ok) => TickKeepsWellformed(s, d, aired, ok);
    case Hear(d, p) => HearKeepsWellformed(s, d, p);
    case Confirm(d, aired, ok) => ConfirmKeepsWellformed(s, d, aired, ok);
    case GiveUp(d) =>
    case Serve(p, given, aired) => ServeKeepsWellformed(s, p, given, aired);
    case Lose(place, p) => AccidentKeepsWellformed(s, place, p);
    case Noise(place) => AccidentKeepsWellformed(s, place, Garbled);
  }

  // How far each stage of drone d's rounds is behind the stage before it, counting what is
  // still under way as done.
  datatype Slack = Slack(
    pingsReceived: int, pongsSent: int, pongsTaken: int, confirmationsSent: int,
    confirmationsReceived: int, acksSent: int, confirmed: int)
  {
    predicate AtLeast(other: Slack) {
      && pingsReceived >= other.pingsReceived && pongsSent >= other.pongsSent
      && pongsTaken >= other.pongsTaken && confirmationsSent >= other.confirmationsSent
      && confirmationsReceived >= other.confirmationsReceived
      && acksSent >= other.acksSent && confirmed >= other.confirmed
    }
  }

  function Count<T>(m: multiset<T>, x: T): int {
    m[x]
  }

  function SlackOf(s: State, d: int): Slack
    requires d in s.toDrone && d in s.phases
  {
    Tallied(s.tally, s.toBase, s.toDrone[d], s.phases[d], d)
  }

  function Tallied(t: Tally, toBase: multiset<Packet>, inbox: multiset<Packet>, phase: Phase, d: int): Slack {
    Slack(
      Count(t.pingsSent, d) - Count(t.pingsReceived, d) - Count(toBase, Sound(Ping(d))),
      Count(t.pingsReceived, d) - Count(t.pongsSent, d),
      Count(t.pongsSent, d) - Count(t.pongsTaken, d) - Count(inbox, Sound(Pong(d))),
      Count(t.pongsTaken, d) - Count(t.confirmationsSent, d) - if phase == Confirming then 1 else 0,
      Count(t.confirmationsSent, d) - Count(t.confirmationsReceived, d) - Count(toBase, Sound(Confirmation(d))),
      Count(t.confirmationsReceived, d) - Count(t.acksSent, d),
      Count(t.acksSent, d) - Count(t.confirmed, d) - Count(inbox, Sound(Ack(d))))
  }

  lemma HearSlack(s: State, e: int, p: Packet, d: int)
    requires Wellformed(s) && Enabled(s, Hear(e, p)) && d in s.phases
    ensures SlackOf(ApplyHear(s, e, p), d).AtLeast(SlackOf(s, d))
  {
    if e == d {
      HearSlackOfHearer(s.tally, s.toBase, s.toDrone[d], s.phases[d], d, p);
    }
  }

  // The hearer's own view of hearing p.
  lemma HearSlackOfHearer(t: Tally, toBase: multiset<Packet>, inbox: multiset<Packet>, phase: Phase,
                                             d: int, p: Packet)
    requires p in inbox && phase in {AwaitPong, AwaitAck}
    ensures Tallied(t, toBase, inbox - multiset{p}, Idle, d).AtLeast(Tallied(t, toBase, inbox, phase, d))
    ensures p == Sound(Pong(d)) ==>
      Tallied(t.(pongsTaken := t.pongsTaken + multiset{d}), toBase, inbox - multiset{p}, Confirming, d)
        .AtLeast(Tallied(t, toBase, inbox, phase, d))
    ensures p == Sound(Ack(d)) ==>
      Tallied(t.(confirmed := t.confirmed + multiset{d}), toBase, inbox - multiset{p}, Idle, d)
        .AtLeast(Tallied(t, toBase, inbox, phase, d))
  {
    Distinct();
  }

  // What putting a request on the air does to d's view: one more sent, one more under way.
  lemma PingSlack(t: Tally, toBase: multiset<Packet>, inbox: multiset<Packet>, heard: multiset<Packet>, phase: Phase,
                  next: Phase, e: int, d: int)
    requires heard == inbox || heard == inbox + multiset{Sound(Ping(e))}
    requires next == Confirming <==> phase == Confirming
    ensures Tallied(t.(pingsSent := t.pingsSent + multiset{e}), toBase + multiset{Sound(Ping(e))}, heard, next, d)
              .AtLeast(Tallied(t, toBase, inbox, phase, d))
  {
    Distinct();
  }

  lemma ConfirmationSlack(t: Tally, toBase: multiset<Packet>, inbox: multiset<Packet>, heard: multiset<Packet>,
                          phase: Phase, next: Phase, e: int, d: int)
    requires heard == inbox || heard == inbox + multiset{Sound(Confirmation(e))}
    requires if e == d then phase == Confirming && next != Confirming else next == phase
    ensures Tallied(t.(confirmationsSent := t.confirmationsSent + multiset{e}),
                    toBase + multiset{Sound(Confirmation(e))}, heard, next, d)
              .AtLeast(Tallied(t, toBase, inbox, phase, d))
  {
    Distinct();
  }

  lemma TickSlack(s: State, e: int, aired: bool, ok: bool, d: int)
    requires Wellformed(s) && Enabled(s, Tick(e, aired, ok)) && d in s.phases
    ensures SlackOf(ApplyTick(s, e, aired, ok), d).AtLeast(SlackOf(s, d))
  {
    if aired {
      var r := ApplyTick(s, e, aired, ok);
      PingSlack(s.tally, s.toBase, s.toDrone[d], r.toDrone[d], s.phases[d], r.phases[d], e, d);
    }
  }

  lemma ConfirmSlack(s: State, e: int, aired: bool, ok: bool, d: int)
    requires Wellformed(s) && Enabled(s, Confirm(e, aired, ok)) && d in s.phases
    ensures SlackOf(ApplyConfirm(s, e, aired, ok), d).AtLeast(SlackOf(s, d))
  {
    if aired {
      var r := ApplyConfirm(s, e, aired, ok);
      ConfirmationSlack(s.tally, s.toBase, s.toDrone[d], r.toDrone[d], s.phases[d], r.phases[d], e, d);
    }
  }

  // What receiving m does to the base's counts, and what sending reply does.
  lemma RequestSlack(t: Tally, toBase: multiset<Packet>, inbox: multiset<Packet>, phase: Phase,
                                        d: int, m: Message)
    requires Sound(m) in toBase && IsRequest(m)
    ensures var after := Tallied(NoteRequest(t, m), toBase - multiset{Sound(m)}, inbox, phase, d);
            && after.AtLeast(Tallied(t, toBase, inbox, phase, d))
            && (m == Ping(d) ==> after.pongsSent == Tallied(t, toBase, inbox, phase, d).pongsSent + 1)
            && (m == Confirmation(d) ==> after.acksSent == Tallied(t, toBase, inbox, phase, d).acksSent + 1)
  {
    Distinct();
  }

  lemma ReplySlack(t: Tally, toBase: multiset<Packet>, inbox: multiset<Packet>, phase: Phase,
                                        d: int, m: Message)
    ensures var before, after := Tallied(t, toBase, inbox, phase, d),
                                 Tallied(NoteReply(t, m), toBase, inbox + multiset{Sound(m)}, phase, d);
            && after.(pongsSent := before.pongsSent, acksSent := before.acksSent).AtLeast(before)
            && after.pongsSent == before.pongsSent - (if m == Pong(d) then 1 else 0)
            && after.acksSent == before.acksSent - (if m == Ack(d) then 1 else 0)
  {
    Distinct();
  }

  lemma RequestIds(m: Message, given: string, d: int)
    requires IsRequest(m)
    ensures Dispatch(m, given) == Some(Pong(d)) <==> m == Ping(d)
    ensures Dispatch(m, given) == Some(Ack(d)) <==> m == Confirmation(d)
  {
    DispatchCauses(m, given, d);
    Distinct();
  }

  lemma ServeSlack(s: State, p: Packet, given: string, aired: bool, d: int)
    requires Wellformed(s) && p in s.toBase && d in s.phases
    ensures SlackOf(ApplyServe(s, p, given, aired), d).AtLeast(SlackOf(s, d))
  {
    if p.Sound? {
      ServeSoundSlack(s, p.message, given, aired, d);
    }
  }

  lemma ServeSoundSlack(s: State, m: Message, given: string, aired: bool, d: int)
    requires Wellformed(s) && Sound(m) in s.toBase && d in s.phases
    ensures SlackOf(ApplyServe(s, Sound(m), given, aired), d).AtLeast(SlackOf(s, d))
  {
    var toBase, inbox, phase := s.toBase - multiset{Sound(m)}, s.toDrone[d], s.phases[d];
    var noted, reply := NoteRequest(s.tally, m), Dispatch(m, given);
    RequestSlack(s.tally, s.toBase, inbox, phase, d, m);
    if aired && reply.Some? {
      RequestIds(m, given, d);
      ReplySlack(noted, toBase, inbox, phase, d, reply.value);
      assert SlackOf(ApplyServe(s, Sound(m), given, aired), d)
          == Tallied(NoteReply(noted, reply.value), toBase, inbox + multiset{Sound(reply.value)}, phase, d);
    } else {
      assert SlackOf(ApplyServe(s, Sound(m), given, aired), d) == Tallied(noted, toBase, inbox, phase, d);
    }
  }

  lemma LoseSlack(s: State, place: Option<int>, p: Packet, d: int)
    requires Wellformed(s) && Enabled(s, Lose(place, p)) && d in s.phases
    ensures SlackOf(ApplyLose(s, place, p), d).AtLeast(SlackOf(s, d))
  {
  }

  lemma NoiseSlack(s: State, place: Option<int>, d: int)
    requires Wellformed(s) && Enabled(s, Noise(place)) && d in s.phases
    ensures SlackOf(ApplyNoise(s, place), d).AtLeast(SlackOf(s, d))
  {
  }

  lemma GiveUpSlack(s: State, e: int, d: int)
    requires Wellformed(s) && Enabled(s, GiveUp(e)) && d in s.phases
    ensures SlackOf(s.(phases := s.phases[e := Idle]), d).AtLeast(SlackOf(s, d))
  {
  }

  // No step lets a stage catch up by more than the stage before it has moved.
  lemma SlackGrows(s: State, step: Step, d: int)
    requires Wellformed(s) && Enabled(s, step) && d in s.phases
    ensures Wellformed(Apply(s, step)) && d in Apply(s, step).phases
    ensures SlackOf(Apply(s, step), d).AtLeast(SlackOf(s, d))
  {
    StepKeepsWellformed(s, step);
    match step
    case Hear(e, p) => HearSlack(s, e, p, d);
    case Tick(e, aired, ok) => TickSlack(s, e, aired, ok, d);
    case Confirm(e, aired, ok) => ConfirmSlack(s, e, aired, ok, d);
    case Serve(p, given, aired) => ServeSlack(s, p, given, aired, d);
    case Lose(place, p) => LoseSlack(s, place, p, d);
    case Noise(place) => NoiseSlack(s, place, d);
    case GiveUp(e) => GiveUpSlack(s, e, d);
  }

  // ----- Runs -----

  ghost predicate Possible(s: State, steps: seq<Step>)
    requires Wellformed(s)
    decreases |steps|
  {
    steps == [] ||
    (Enabled(s, steps[0]) && (StepKeepsWellformed(s, steps[0]); Possible(Apply(s, steps[0]), steps[1..])))
  }

  ghost function After(s: State, steps: seq<Step>): (r: State)
    requires Wellformed(s) && Possible(s, steps)
    ensures Wellformed(r) && r.phases.Keys == s.phases.Keys
    decreases |steps|
  {
    if steps == [] then s
    else
      StepKeepsWellformed(s, steps[0]);
      After(Apply(s, steps[0]), steps[1..])
  }

  lemma {:induction false} RunSlack(s: State, steps: seq<Step>, d: int)
    requires Wellformed(s) && Possible(s, steps) && d in s.phases
    ensures SlackOf(After(s, steps), d).AtLeast(SlackOf(s, d))
    decreases |steps|
  {
    if steps != [] {
      StepKeepsWellformed(s, steps[0]);
      SlackGrows(s, steps[0], d);
      RunSlack(Apply(s, steps[0]), steps[1..], d);
    }
  }

  // The order in which a drone's counts must stand.
  predicate Causal(t: Tally, d: int) {
    t.confirmed[d] <= t.acksSent[d] <= t.confirmationsReceived[d] <= t.confirmationsSent[d]
      <= t.pongsTaken[d] <= t.pongsSent[d] <= t.pingsReceived[d] <= t.pingsSent[d]
  }

  lemma SlackMeans(t: Tally, toBase: multiset<Packet>, inbox: multiset<Packet>, phase: Phase, d: int)
    requires Tallied(t, toBase, inbox, phase, d).AtLeast(Slack(0, 0, 0, 0, 0, 0, 0))
    ensures Causal(t, d)
  {
  }

  // The whole chain, in every reachable state and for every drone: nothing is counted that
  // does not go back to something that happened, all the way to a ping on the air.
  lemma {:induction false} Causality(s: State, steps: seq<Step>, d: int)
    requires Initial(s) && Possible(s, steps) && d in s.phases
    ensures Causal(After(s, steps).tally, d)
  {
    assert Tallied(SILENCE, multiset{}, multiset{}, Idle, d).AtLeast(Slack(0, 0, 0, 0, 0, 0, 0));
    RunSlack(s, steps, d);
    var r := After(s, steps);
    SlackMeans(r.tally, r.toBase, r.toDrone[d], r.phases[d], d);
  }

  // ----- Stale pongs -----

  function Gain(before: multiset<int>, after: multiset<int>, d: int): int {
    Count(after, d) - Count(before, d)
  }

  // From s on, d never takes more pongs than the base has received pings of it from s on.
  ghost predicate Fresh(s: State, d: int)
    requires Wellformed(s)
  {
    forall steps :: Possible(s, steps) ==>
      Gain(s.tally.pongsTaken, After(s, steps).tally.pongsTaken, d)
        <= Gain(s.tally.pingsReceived, After(s, steps).tally.pingsReceived, d)
  }

  lemma {:induction false} TwoSteps(s: State, a: Step, b: Step)
    requires Wellformed(s) && Enabled(s, a) && Wellformed(Apply(s, a)) && Enabled(Apply(s, a), b)
    ensures Possible(s, [a, b]) && After(s, [a, b]) == Apply(Apply(s, a), b)
  {
    var first := Apply(s, a);
    var second := Apply(first, b);
    StepKeepsWellformed(first, b);
    assert [a, b][1..] == [b] && [b][1..] == [];
    assert Possible(second, []) && After(second, []) == second;
    assert Possible(first, [b]) && After(first, [b]) == second;
  }

  // Two steps in which an idle drone takes a pong that was there before.
  lemma StaleRun(s: State, d: int, pong: Packet) returns (steps: seq<Step>)
    requires Wellformed(s) && d in s.phases && s.phases[d] == Idle && pong == Sound(Pong(d)) && pong in s.toDrone[d]
    ensures Possible(s, steps)
    ensures After(s, steps).tally.pongsTaken == s.tally.pongsTaken + multiset{d}
    ensures After(s, steps).tally.pingsReceived == s.tally.pingsReceived
  {
    steps := [Tick(d, true, true), Hear(d, pong)];
    var first := ApplyTick(s, d, true, true);
    TickKeepsWellformed(s, d, true, true);
    assert first.phases[d] == AwaitPong && first.toDrone[d] == s.toDrone[d];
    assert first.tally.pongsTaken == s.tally.pongsTaken && first.tally.pingsReceived == s.tally.pingsReceived;
    TwoSteps(s, Tick(d, true, true), Hear(d, pong));
    assert After(s, steps) == ApplyHear(first, d, pong);
  }

  // In any stretch of any run a drone takes no more pongs than the base receives pings in
  // that stretch, plus the pongs that were there at its start.
  lemma {:induction false} StretchBounded(s: State, steps: seq<Step>, d: int, pong: Packet)
    requires Wellformed(s) && Possible(s, steps) && d in s.phases && pong == Sound(Pong(d))
    ensures var r := After(s, steps);
            Gain(s.tally.pongsTaken, r.tally.pongsTaken, d)
              <= Gain(s.tally.pingsReceived, r.tally.pingsReceived, d) + Count(s.toDrone[d], pong)
  {
    RunSlack(s, steps, d);
    var r := After(s, steps);
    assert Count(r.toDrone[d], pong) >= 0;
  }

  lemma FreshWithout(s: State, d: int, pong: Packet)
    requires Wellformed(s) && d in s.phases && pong == Sound(Pong(d)) && pong !in s.toDrone[d]
    ensures Fresh(s, d)
  {
    forall steps | Possible(s, steps)
      ensures Gain(s.tally.pongsTaken, After(s, steps).tally.pongsTaken, d)
           <= Gain(s.tally.pingsReceived, After(s, steps).tally.pingsReceived, d)
    {
      StretchBounded(s, steps, d, pong);
    }
  }

  lemma NotFreshWith(s: State, d: int, pong: Packet)
    requires Wellformed(s) && d in s.phases && s.phases[d] == Idle && pong == Sound(Pong(d)) && pong in s.toDrone[d]
    ensures !Fresh(s, d)
  {
    var steps := StaleRun(s, d, pong);
    assert Gain(s.tally.pongsTaken, After(s, steps).tally.pongsTaken, d) == 1;
  }

  // A round does not know which ping its pong answers.  So an idle drone's later pongs are
  // covered, one for one, by later receptions at the base exactly when no pong for it is
  // still waiting in its receiver or in the air.
  lemma FreshExactlyWhen(s: State, d: int)
    requires Wellformed(s) && d in s.phases && s.phases[d] == Idle
    ensures Fresh(s, d) <==> Sound(Pong(d)) !in s.toDrone[d]
  {
    var pong := Sound(Pong(d));
    if pong in s.toDrone[d] {
      NotFreshWith(s, d, pong);
    } else {
      FreshWithout(s, d, pong);
    }
  }

  // ----- A round can always be completed -----

  // ok holds before a step if it holds after it.
  ghost predicate Backward(ok: State -> bool) {
    forall s, step :: Wellformed(s) && Enabled(s, step) && ok(Apply(s, step)) ==> ok(s)
  }

  // Some run from s ends in goal.
  ghost predicate Can(s: State, goal: State -> bool) {
    Wellformed(s) && exists steps :: Possible(s, steps) && goal(After(s, steps))
  }

  lemma CanStep(s: State, step: Step, goal: State -> bool)
    requires Wellformed(s) && Enabled(s, step) && Can(Apply(s, step), goal)
    ensures Can(s, goal)
  {
    var next := Apply(s, step);
    var more :| Possible(next, more) && goal(After(next, more));
    assert ([step] + more)[1..] == more;
    assert Possible(s, [step] + more) && After(s, [step] + more) == After(next, more);
  }

  lemma ServeAnswers(s: State, d: int, request: Packet, reply: Packet)
    requires Wellformed(s) && d in s.phases && request in s.toBase
    requires (request == Sound(Ping(d)) && reply == Sound(Pong(d)))
        || (request == Sound(Confirmation(d)) && reply == Sound(Ack(d)))
    ensures var r := ApplyServe(s, request, "", true);
            Wellformed(r) && reply in r.toDrone[d] && r.phases == s.phases && r.tally.confirmed == s.tally.confirmed
  {
    ServeKeepsWellformed(s, request, "", true);
    Distinct();
    DispatchCauses(request.message, "", d);
    var inboxes := ApplyServe(s, request, "", true).toDrone;
    assert inboxes[d] == s.toDrone[d] + multiset{reply};
  }

  lemma Ticks(s: State, d: int, ping: Packet, ok: State -> bool) returns (r: State)
    requires Wellformed(s) && d in s.phases && s.phases[d] == Idle && ping == Sound(Ping(d)) && Backward(ok)
    ensures Wellformed(r) && (ok(r) ==> ok(s))
    ensures r.phases == s.phases[d := AwaitPong] && ping in r.toBase && r.tally.confirmed == s.tally.confirmed
  {
    r := ApplyTick(s, d, true, true);
    TickKeepsWellformed(s, d, true, true);
    assert Enabled(s, Tick(d, true, true));
    assert r == Apply(s, Tick(d, true, true));
  }

  lemma Confirms(s: State, d: int, confirmation: Packet, ok: State -> bool) returns (r: State)
    requires Wellformed(s) && d in s.phases && s.phases[d] == Confirming && confirmation == Sound(Confirmation(d))
        && Backward(ok)
    ensures Wellformed(r) && (ok(r) ==> ok(s))
    ensures r.phases == s.phases[d := AwaitAck] && confirmation in r.toBase && r.tally.confirmed == s.tally.confirmed
  {
    r := ApplyConfirm(s, d, true, true);
    ConfirmKeepsWellformed(s, d, true, true);
    assert Enabled(s, Confirm(d, true, true));
    assert r == Apply(s, Confirm(d, true, true));
  }

  lemma Serves(s: State, d: int, request: Packet, reply: Packet, ok: State -> bool) returns (r: State)
    requires Wellformed(s) && d in s.phases && request in s.toBase && Backward(ok)
    requires (request == Sound(Ping(d)) && reply == Sound(Pong(d)))
        || (request == Sound(Confirmation(d)) && reply == Sound(Ack(d)))
    ensures Wellformed(r) && (ok(r) ==> ok(s))
    ensures r.phases == s.phases && r.tally.confirmed == s.tally.confirmed && d in r.toDrone && reply in r.toDrone[d]
  {
    r := ApplyServe(s, request, "", true);
    ServeAnswers(s, d, request, reply);
    assert Enabled(s, Serve(request, "", true));
    assert r == Apply(s, Serve(request, "", true));
  }

  lemma Hears(s: State, d: int, p: Packet, ok: State -> bool) returns (r: State)
    requires Wellformed(s) && d in s.phases && p in s.toDrone[d] && Backward(ok)
    requires (s.phases[d] == AwaitPong && p == Sound(Pong(d))) || (s.phases[d] == AwaitAck && p == Sound(Ack(d)))
    ensures Wellformed(r) && (ok(r) ==> ok(s))
    ensures r.phases == s.phases[d := if s.phases[d] == AwaitPong then Confirming else Idle]
    ensures r.tally.confirmed == if s.phases[d] == AwaitPong then s.tally.confirmed else s.tally.confirmed + multiset{d}
  {
    r := ApplyHear(s, d, p);
    HearKeepsWellformed(s, d, p);
    assert Enabled(s, Hear(d, p));
    assert r == Apply(s, Hear(d, p));
  }

  // A round in which nothing goes wrong: three steps to the confirmation, three to its end.
  lemma FirstHalf(s: State, d: int, ping: Packet, pong: Packet, ok: State -> bool) returns (r: State)
    requires Wellformed(s) && d in s.phases && s.phases[d] == Idle && Backward(ok)
    requires ping == Sound(Ping(d)) && pong == Sound(Pong(d))
    ensures Wellformed(r) && (ok(r) ==> ok(s))
    ensures r.phases == s.phases[d := Confirming] && r.tally.confirmed == s.tally.confirmed
  {
    var first := Ticks(s, d, ping, ok);
    var second := Serves(first, d, ping, pong, ok);
    r := Hears(second, d, pong, ok);
  }

  lemma SecondHalf(s: State, d: int, confirmation: Packet, ack: Packet, ok: State -> bool) returns (r: State)
    requires Wellformed(s) && d in s.phases && s.phases[d] == Confirming && Backward(ok)
    requires confirmation == Sound(Confirmation(d)) && ack == Sound(Ack(d))
    ensures Wellformed(r) && (ok(r) ==> ok(s))
    ensures r.phases == s.phases[d := Idle] && r.tally.confirmed == s.tally.confirmed + multiset{d}
  {
    var first := Confirms(s, d, confirmation, ok);
    var second := Serves(first, d, confirmation, ack, ok);
    r := Hears(second, d, ack, ok);
  }

  lemma Round(s: State, d: int, ok: State -> bool) returns (r: State)
    requires Wellformed(s) && d in s.phases && s.phases[d] == Idle && Backward(ok)
    ensures Wellformed(r) && (ok(r) ==> ok(s))
    ensures r.phases == s.phases && r.tally.confirmed == s.tally.confirmed + multiset{d}
  {
    var middle := FirstHalf(s, d, Sound(Ping(d)), Sound(Pong(d)), ok);
    r := SecondHalf(middle, d, Sound(Confirmation(d)), Sound(Ack(d)), ok);
  }

  // Whatever has gone wrong before, an idle drone can complete a round, and is idle again.
  lemma RoundCompletes(s: State, d: int) returns (steps: seq<Step>)
    requires Wellformed(s) && d in s.phases && s.phases[d] == Idle
    ensures Possible(s, steps)
    ensures var r := After(s, steps); r.phases == s.phases && r.tally.confirmed == s.tally.confirmed + multiset{d}
  {
    var goal: State -> bool := (r: State) =>
      r.phases == s.phases && r.tally.confirmed == s.tally.confirmed + multiset{d};
    var ok: State -> bool := (x: State) => Can(x, goal);
    forall x, step | Wellformed(x) && Enabled(x, step) && ok(Apply(x, step)) ensures ok(x) {
      CanStep(x, step, goal);
    }
    var r := Round(s, d, ok);
    assert Possible(r, []) && After(r, []) == r;
    steps :| Possible(s, steps) && goal(After(s, steps));
  }
}
