/** Controller commands on their way from the base's queue to any number of drones, in every
    interleaving: handlers run side by side, wait, give up and are given up on; requests and
    replies get lost. */
module ControllerRuns {
  import opened Codec
  import opened ControllerQueue
  import Frames
  import Handlers
  import opened Options
  import Seqs

  // An acknowledgement carries, besides its text, the position of the command it is for.
  datatype Request = Poll | Acknowledge(index: nat, text: string)

  // A command on offer, with its position among the dequeued ones.
  datatype Offer = Offer(index: nat, text: string)

  datatype Phase = Waiting | Replying(offer: Option<Offer>) | Finished

  datatype Conn = Conn(drone: nat, request: Request, phase: Phase)

  datatype Poller = Idle | Polling(conn: nat) | Owing(index: nat, text: string) | Acking(conn: nat)

  datatype Delivery = Delivery(index: nat, command: Command)

  datatype LogEntry = LogEntry(conn: nat, command: Command)

  datatype State = State(
    queue: seq<Command>,
    accepted: seq<Command>,
    dequeued: seq<Command>,
    handedTo: seq<nat>,               // the connection that took each dequeued command
    conns: seq<Conn>,                 // all connections there have been
    pollers: map<nat, Poller>,
    received: map<nat, seq<Delivery>>,
    logged: map<nat, seq<LogEntry>>)

  datatype Step =
    | Enqueue(command: Command)
    | OpenPoll(drone: nat)
    | OpenAck(drone: nat)
    | GiveUp(drone: nat)
    | Take(conn: nat)                 // the handler dequeues
    | WakeUp(conn: nat)               // it times out, or its context is done
    | Log(conn: nat)                  // it handles an acknowledgement
    | Write(conn: nat, arrives: bool)
    | Drop(conn: nat)                 // the request never arrives

  ghost predicate Initial(s: State) {
    && s.queue == [] && s.accepted == [] && s.dequeued == [] && s.handedTo == [] && s.conns == []
    && s.received.Keys == s.pollers.Keys && s.logged.Keys == s.pollers.Keys
    && forall d :: d in s.pollers ==> s.pollers[d] == Idle && s.received[d] == [] && s.logged[d] == []
  }

  ghost predicate WaitingFor(s: State, c: nat, poll: bool) {
    c < |s.conns| && s.conns[c].phase.Waiting? && s.conns[c].request.Poll? == poll
  }

  // What the handler of a connection writes once it has an answer.
  function Reply(texts: Texts, conn: Conn): Message
    requires conn.phase.Replying?
  {
    match conn.request
    case Poll => Message(conn.drone, "controller_cmd",
                         match conn.phase.offer case Some(offer) => offer.text case None => "")
    case Acknowledge(_, text) => AckReply(texts, AckRequest(conn.drone, text))
  }

  // What a drone writes on the connections that it opens.
  function RequestOf(conn: Conn): Message {
    match conn.request
    case Poll => ControllerQueue.Poll(conn.drone)
    case Acknowledge(_, text) => AckRequest(conn.drone, text)
  }

  // Nothing arrives that does not encode: no poll, no reply and no acknowledgement.
  ghost predicate Enabled(texts: Texts, s: State, step: Step) {
    match step
    case Enqueue(_) => true
    case OpenPoll(d) => d in s.pollers && s.pollers[d].Idle? && Encode(texts.json, ControllerQueue.Poll(d)).Ok?
    case OpenAck(d) =>
      d in s.pollers && s.pollers[d].Owing? && Encode(texts.json, AckRequest(d, s.pollers[d].text)).Ok?
    case GiveUp(d) => d in s.pollers
    case Take(c) => WaitingFor(s, c, true) && s.queue != []
    case WakeUp(c) => WaitingFor(s, c, true)
    case Log(c) => WaitingFor(s, c, false) && s.conns[c].drone in s.logged
    case Write(c, arrives) =>
      && c < |s.conns| && s.conns[c].phase.Replying?
      && (arrives ==> var d := s.conns[c].drone;
                      && d in s.pollers && d in s.received && (s.pollers[d] == Polling(c) || s.pollers[d] == Acking(c))
                      && Encode(texts.json, Reply(texts, s.conns[c])).Ok?)
    case Drop(c) => c < |s.conns| && s.conns[c].phase.Waiting?
  }

  function SetPhase(s: State, c: nat, phase: Phase): State
    requires c < |s.conns|
  {
    s.(conns := s.conns[c := s.conns[c].(phase := phase)])
  }

  function ApplyTake(texts: Texts, s: State, c: nat): State
    requires c < |s.conns| && s.queue != []
  {
    var offer := Offer(|s.dequeued|, CommandText(texts, s.queue[0]));
    SetPhase(s, c, Replying(Some(offer)))
      .(queue := s.queue[1..], dequeued := s.dequeued + [s.queue[0]], handedTo := s.handedTo + [c])
  }

  function ApplyLog(texts: Texts, s: State, c: nat): State
    requires c < |s.conns| && s.conns[c].request.Acknowledge? && s.conns[c].drone in s.logged
  {
    var d, text := s.conns[c].drone, s.conns[c].request.text;
    var ack := AckIn(texts, text);
    var next := SetPhase(s, c, Replying(None));
    if ack.None? then next
    else next.(logged := s.logged[d := s.logged[d] + [LogEntry(c, Command(ack.value.action, ack.value.payload))]])
  }

  // The drone has an offer in its hands.
  function ApplyReceive(texts: Texts, s: State, d: nat, offer: Offer): State
    requires d in s.received
  {
    var command := CommandIn(texts, offer.text);
    if command.None? then s.(pollers := s.pollers[d := Idle])
    else
      var ack := texts.marshalAck(Taken(command.value));
      s.(received := s.received[d := s.received[d] + [Delivery(offer.index, command.value)]],
         pollers := s.pollers[d := if ack.Some? then Owing(offer.index, ack.value) else Idle])
  }

  function ApplyWrite(texts: Texts, s: State, c: nat, arrives: bool): State
    requires c < |s.conns| && s.conns[c].phase.Replying?
    requires arrives ==> s.conns[c].drone in s.pollers && s.conns[c].drone in s.received
  {
    var d, offer, next := s.conns[c].drone, s.conns[c].phase.offer, SetPhase(s, c, Finished);
    if !arrives then next
    else if s.pollers[d] == Polling(c) && offer.Some? then ApplyReceive(texts, next, d, offer.value)
    else next.(pollers := s.pollers[d := Idle])
  }

  function Open(s: State, d: nat, request: Request): State {
    s.(conns := s.conns + [Conn(d, request, Waiting)],
       pollers := s.pollers[d := if request.Poll? then Polling(|s.conns|) else Acking(|s.conns|)])
  }

  function Apply(texts: Texts, s: State, step: Step): State
    requires Enabled(texts, s, step)
  {
    match step
    case Enqueue(c) =>
      if |s.queue| < CAPACITY then s.(queue := s.queue + [c], accepted := s.accepted + [c]) else s
    case OpenPoll(d) => Open(s, d, Poll)
    case OpenAck(d) => Open(s, d, Acknowledge(s.pollers[d].index, s.pollers[d].text))
    case GiveUp(d) => s.(pollers := s.pollers[d := Idle])
    case Take(c) => ApplyTake(texts, s, c)
    case WakeUp(c) => SetPhase(s, c, Replying(None))
    case Log(c) => ApplyLog(texts, s, c)
    case Write(c, arrives) => ApplyWrite(texts, s, c, arrives)
    case Drop(c) => SetPhase(s, c, Finished)
  }

  // A write ends the connection, whether or not it arrives, and so does a request that never
  // does.  Only a reply that arrives frees the drone that waits for it, which may then owe an
  // acknowledgement.
  lemma WriteEnds(texts: Texts, s: State, c: nat, arrives: bool)
    requires Enabled(texts, s, Write(c, arrives))
    ensures var r, d := Apply(texts, s, Write(c, arrives)), s.conns[c].drone;
            && r.conns == s.conns[c := s.conns[c].(phase := Finished)]
            && r.queue == s.queue && r.accepted == s.accepted && r.dequeued == s.dequeued && r.logged == s.logged
            && (!arrives ==> r.pollers == s.pollers && r.received == s.received)
            && (arrives ==> d in r.pollers && (r.pollers[d].Idle? || r.pollers[d].Owing?)
                            && r.pollers == s.pollers[d := r.pollers[d]])
  {
  }

  lemma DropEnds(texts: Texts, s: State, c: nat)
    requires Enabled(texts, s, Drop(c))
    ensures Apply(texts, s, Drop(c)) == s.(conns := s.conns[c := s.conns[c].(phase := Finished)])
  {
  }

  // ----- The invariant -----

  predicate QueueOk(s: State) {
    && s.accepted == s.dequeued + s.queue && |s.queue| <= CAPACITY && |s.handedTo| == |s.dequeued|
    && s.received.Keys == s.pollers.Keys && s.logged.Keys == s.pollers.Keys
  }

  // Every dequeued command went to one poll, and every poll took at most one.
  ghost predicate HandedOk(handedTo: seq<nat>, conns: seq<Conn>) {
    && (forall i :: 0 <= i < |handedTo| ==>
          handedTo[i] < |conns| && conns[handedTo[i]].request.Poll? && !conns[handedTo[i]].phase.Waiting?)
    && (forall i, j :: 0 <= i < j < |handedTo| ==> handedTo[i] != handedTo[j])
  }

  // What connection c offers is a command it took.
  ghost predicate OfferOk(texts: Texts, c: nat, offer: Offer, handedTo: seq<nat>, dequeued: seq<Command>) {
    && offer.index < |handedTo| && handedTo[offer.index] == c
    && offer.index < |dequeued| && offer.text == CommandText(texts, dequeued[offer.index])
  }

  predicate Offering(conn: Conn) {
    conn.phase.Replying? && conn.phase.offer.Some?
  }

  ghost predicate OffersOk(texts: Texts, conns: seq<Conn>, handedTo: seq<nat>, dequeued: seq<Command>) {
    forall c :: 0 <= c < |conns| && Offering(conns[c])
        ==> OfferOk(texts, c, conns[c].phase.offer.value, handedTo, dequeued)
  }

  // What drone d has received is a command that went to a connection of its own, now over.
  ghost predicate DeliveryOk(d: nat, x: Delivery, conns: seq<Conn>, handedTo: seq<nat>, dequeued: seq<Command>) {
    && x.index < |dequeued| && x.command == dequeued[x.index]
    && x.index < |handedTo| && handedTo[x.index] < |conns|
    && conns[handedTo[x.index]].drone == d && conns[handedTo[x.index]].phase.Finished?
  }

  ghost predicate HistoryOk(d: nat, xs: seq<Delivery>, conns: seq<Conn>, handedTo: seq<nat>, dequeued: seq<Command>) {
    && Increasing(xs)
    && (forall k :: 0 <= k < |xs| ==> DeliveryOk(d, xs[k], conns, handedTo, dequeued))
  }

  ghost predicate Increasing(xs: seq<Delivery>) {
    forall j, k :: 0 <= j < k < |xs| ==> xs[j].index < xs[k].index
  }

  ghost predicate ReceivedOk(s: State) {
    forall d :: d in s.received ==> HistoryOk(d, s.received[d], s.conns, s.handedTo, s.dequeued)
  }

  // What is on offer to a drone comes later than all it has.
  ghost predicate PollerOk(d: nat, poller: Poller, xs: seq<Delivery>, conns: seq<Conn>) {
    poller.Polling? ==>
      var c := poller.conn;
      && c < |conns| && conns[c].drone == d && conns[c].request.Poll?
      && (Offering(conns[c]) ==> forall k :: 0 <= k < |xs| ==> xs[k].index < conns[c].phase.offer.value.index)
  }

  ghost predicate PollersOk(s: State) {
    forall d :: d in s.pollers && d in s.received ==> PollerOk(d, s.pollers[d], s.received[d], s.conns)
  }

  // An acknowledgement is for a command its drone has received.
  ghost predicate AckOk(texts: Texts, d: nat, index: nat, text: string, received: map<nat, seq<Delivery>>,
      dequeued: seq<Command>) {
    && d in received && index < |dequeued| && Delivery(index, dequeued[index]) in received[d]
    && texts.marshalAck(Taken(dequeued[index])) == Some(text)
  }

  // No command is acknowledged on two connections.
  ghost predicate AcksOk(texts: Texts, conns: seq<Conn>, received: map<nat, seq<Delivery>>, dequeued: seq<Command>) {
    && (forall c :: 0 <= c < |conns| && conns[c].request.Acknowledge? ==>
          AckOk(texts, conns[c].drone, conns[c].request.index, conns[c].request.text, received, dequeued))
    && (forall b, c :: 0 <= b < c < |conns| && conns[b].request.Acknowledge? && conns[c].request.Acknowledge? ==>
          conns[b].request.index != conns[c].request.index)
  }

  ghost predicate NotYetSent(conns: seq<Conn>, index: nat) {
    forall c :: 0 <= c < |conns| && conns[c].request.Acknowledge? ==> conns[c].request.index != index
  }

  ghost predicate OwingOk(texts: Texts, s: State) {
    forall d :: d in s.pollers && s.pollers[d].Owing? ==>
      && AckOk(texts, d, s.pollers[d].index, s.pollers[d].text, s.received, s.dequeued)
      && NotYetSent(s.conns, s.pollers[d].index)
  }

  ghost predicate EntryOk(d: nat, e: LogEntry, conns: seq<Conn>, dequeued: seq<Command>) {
    && e.conn < |conns| && conns[e.conn].request.Acknowledge? && !conns[e.conn].phase.Waiting?
    && conns[e.conn].drone == d
    && conns[e.conn].request.index < |dequeued| && e.command == dequeued[conns[e.conn].request.index]
  }

  // Every acknowledgement is logged at most once.
  ghost predicate LogOk(d: nat, entries: seq<LogEntry>, conns: seq<Conn>, dequeued: seq<Command>) {
    && (forall k :: 0 <= k < |entries| ==> EntryOk(d, entries[k], conns, dequeued))
    && (forall j, k :: 0 <= j < k < |entries| ==> entries[j].conn != entries[k].conn)
  }

  ghost predicate LoggedOk(s: State) {
    forall d :: d in s.logged ==> LogOk(d, s.logged[d], s.conns, s.dequeued)
  }

  ghost predicate Books(texts: Texts, s: State) {
    && QueueOk(s) && HandedOk(s.handedTo, s.conns) && OffersOk(texts, s.conns, s.handedTo, s.dequeued)
    && ReceivedOk(s) && PollersOk(s)
    && AcksOk(texts, s.conns, s.received, s.dequeued) && OwingOk(texts, s) && LoggedOk(s)
  }

  lemma EnqueueKeepsBooks(texts: Texts, s: State, c: Command)
    requires Books(texts, s)
    ensures Books(texts, Apply(texts, s, Enqueue(c)))
  {
    Seqs.Assoc(s.dequeued, s.queue, [c]);
  }

  lemma GiveUpKeepsBooks(texts: Texts, s: State, d: nat)
    requires Books(texts, s) && d in s.pollers
    ensures Books(texts, s.(pollers := s.pollers[d := Idle]))
  {
  }

  // A new connection changes nothing about the old ones.
  lemma OpenKeepsHistory(texts: Texts, s: State, conn: Conn)
    requires Books(texts, s) && conn.phase.Waiting?
    ensures var r := s.(conns := s.conns + [conn]);
            && HandedOk(r.handedTo, r.conns) && OffersOk(texts, r.conns, r.handedTo, r.dequeued)
            && ReceivedOk(r) && PollersOk(r) && LoggedOk(r)
  {
  }

  lemma OpenPollKeepsAcks(texts: Texts, s: State, d: nat)
    requires AcksOk(texts, s.conns, s.received, s.dequeued) && OwingOk(texts, s) && d in s.pollers
    ensures var r := Open(s, d, Poll); AcksOk(texts, r.conns, r.received, r.dequeued) && OwingOk(texts, r)
  {
    var r := Open(s, d, Poll);
    forall e | e in r.pollers && r.pollers[e].Owing? ensures NotYetSent(r.conns, r.pollers[e].index) {
      assert r.pollers[e] == s.pollers[e];
    }
  }

  lemma OpenPollKeepsPollers(s: State, d: nat)
    requires PollersOk(s) && d in s.pollers
    ensures PollersOk(Open(s, d, Poll))
  {
    var r := Open(s, d, Poll);
    forall e | e in r.pollers && e in r.received ensures PollerOk(e, r.pollers[e], r.received[e], r.conns) {
      if e != d {
        assert PollerOk(e, s.pollers[e], s.received[e], s.conns);
      }
    }
  }

  lemma OpenPollKeepsBooks(texts: Texts, s: State, d: nat)
    requires Books(texts, s) && Enabled(texts, s, OpenPoll(d))
    ensures Books(texts, Open(s, d, Poll))
  {
    OpenKeepsHistory(texts, s, Conn(d, Poll, Waiting));
    OpenPollKeepsAcks(texts, s, d);
    OpenPollKeepsPollers(s, d);
  }

  lemma OpenAckKeepsAcks(texts: Texts, s: State, d: nat)
    requires Books(texts, s) && Enabled(texts, s, OpenAck(d))
    ensures var r := Open(s, d, Acknowledge(s.pollers[d].index, s.pollers[d].text));
            AcksOk(texts, r.conns, r.received, r.dequeued) && OwingOk(texts, r)
  {
    forall e | e in s.pollers && s.pollers[e].Owing? && e != d ensures s.pollers[e].index != s.pollers[d].index {
      ReceivedElsewhere(s, d, e, s.pollers[d].index, s.pollers[e].index);
    }
  }

  // Two drones never have the same command.
  lemma ReceivedElsewhere(s: State, d: nat, e: nat, i: nat, j: nat)
    requires ReceivedOk(s) && d in s.received && e in s.received && d != e
    requires i < |s.dequeued| && Delivery(i, s.dequeued[i]) in s.received[d]
    requires j < |s.dequeued| && Delivery(j, s.dequeued[j]) in s.received[e]
    ensures i != j
  {
    var k :| 0 <= k < |s.received[d]| && s.received[d][k] == Delivery(i, s.dequeued[i]);
    var l :| 0 <= l < |s.received[e]| && s.received[e][l] == Delivery(j, s.dequeued[j]);
    assert DeliveryOk(d, s.received[d][k], s.conns, s.handedTo, s.dequeued);
    assert DeliveryOk(e, s.received[e][l], s.conns, s.handedTo, s.dequeued);
  }

  lemma OpenAckKeepsBooks(texts: Texts, s: State, d: nat)
    requires Books(texts, s) && Enabled(texts, s, OpenAck(d))
    ensures Books(texts, Open(s, d, Acknowledge(s.pollers[d].index, s.pollers[d].text)))
  {
    OpenKeepsHistory(texts, s, Conn(d, Acknowledge(s.pollers[d].index, s.pollers[d].text), Waiting));
    OpenAckKeepsAcks(texts, s, d);
  }

  lemma HeadMoves(front: seq<Command>, back: seq<Command>)
    requires back != []
    ensures front + back == (front + [back[0]]) + back[1..]
  {
    assert back == [back[0]] + back[1..];
    Seqs.Assoc(front, [back[0]], back[1..]);
  }

  lemma TakeKeepsHistory(texts: Texts, s: State, c: nat)
    requires Books(texts, s) && Enabled(texts, s, Take(c))
    ensures var r := ApplyTake(texts, s, c);
            && QueueOk(r) && HandedOk(r.handedTo, r.conns) && OffersOk(texts, r.conns, r.handedTo, r.dequeued)
            && ReceivedOk(r) && LoggedOk(r)
  {
    HeadMoves(s.dequeued, s.queue);
  }

  lemma TakeKeepsBooks(texts: Texts, s: State, c: nat)
    requires Books(texts, s) && Enabled(texts, s, Take(c))
    ensures Books(texts, ApplyTake(texts, s, c))
  {
    TakeKeepsHistory(texts, s, c);
  }

  lemma SetPhaseKeepsBooks(texts: Texts, s: State, c: nat, phase: Phase)
    requires Books(texts, s) && c < |s.conns|
    requires phase == Finished || (phase == Replying(None) && s.conns[c].phase.Waiting?)
    ensures Books(texts, SetPhase(s, c, phase))
  {
  }

  // No acknowledgement on a connection that still waits has been logged.
  lemma NotLoggedYet(s: State, d: nat, c: nat)
    requires LoggedOk(s) && d in s.logged && c < |s.conns| && s.conns[c].phase.Waiting?
    ensures forall k :: 0 <= k < |s.logged[d]| ==> s.logged[d][k].conn != c
  {
    assert LogOk(d, s.logged[d], s.conns, s.dequeued);
    forall k | 0 <= k < |s.logged[d]| ensures s.logged[d][k].conn != c {
      assert EntryOk(d, s.logged[d][k], s.conns, s.dequeued);
    }
  }

  lemma EntryKeepsBooks(texts: Texts, s: State, d: nat, e: LogEntry)
    requires Books(texts, s) && d in s.logged && EntryOk(d, e, s.conns, s.dequeued)
    requires forall k :: 0 <= k < |s.logged[d]| ==> s.logged[d][k].conn != e.conn
    ensures Books(texts, s.(logged := s.logged[d := s.logged[d] + [e]]))
  {
    assert LogOk(d, s.logged[d], s.conns, s.dequeued);
    assert LogOk(d, s.logged[d] + [e], s.conns, s.dequeued);
  }

  lemma LogKeepsBooks(texts: Texts, s: State, c: nat)
    requires texts.Faithful() && Books(texts, s) && Enabled(texts, s, Log(c))
    ensures Books(texts, ApplyLog(texts, s, c))
  {
    SetPhaseKeepsBooks(texts, s, c, Replying(None));
    var next, d, request := SetPhase(s, c, Replying(None)), s.conns[c].drone, s.conns[c].request;
    assert AckOk(texts, d, request.index, request.text, s.received, s.dequeued);
    var command := s.dequeued[request.index];
    assert AckIn(texts, request.text) == Some(Taken(command));
    NotLoggedYet(s, d, c);
    EntryKeepsBooks(texts, next, d, LogEntry(c, command));
  }

  // The command that arrives is new to its drone, and nobody has acknowledged it.
  lemma OfferIsNew(texts: Texts, s: State, c: nat)
    requires Books(texts, s) && c < |s.conns| && Offering(s.conns[c])
    ensures NotYetSent(s.conns, s.conns[c].phase.offer.value.index)
  {
    var index := s.conns[c].phase.offer.value.index;
    assert OfferOk(texts, c, s.conns[c].phase.offer.value, s.handedTo, s.dequeued);
    forall b | 0 <= b < |s.conns| && s.conns[b].request.Acknowledge? ensures s.conns[b].request.index != index {
      var d, j := s.conns[b].drone, s.conns[b].request.index;
      assert AckOk(texts, d, j, s.conns[b].request.text, s.received, s.dequeued);
      var k :| 0 <= k < |s.received[d]| && s.received[d][k] == Delivery(j, s.dequeued[j]);
      assert DeliveryOk(d, s.received[d][k], s.conns, s.handedTo, s.dequeued);
    }
  }

  // One more delivery, which leaves the poller where it likes.
  function Delivered(s: State, d: nat, c: nat, x: Delivery, poller: Poller): State
    requires d in s.received && c < |s.conns|
  {
    SetPhase(s, c, Finished).(received := s.received[d := s.received[d] + [x]], pollers := s.pollers[d := poller])
  }

  lemma DeliveredKeepsHistory(texts: Texts, s: State, d: nat, c: nat, x: Delivery, poller: Poller)
    requires Books(texts, s) && d in s.pollers && s.pollers[d] == Polling(c) && c < |s.conns| && Offering(s.conns[c])
    requires x.index == s.conns[c].phase.offer.value.index < |s.dequeued| && x.command == s.dequeued[x.index]
    requires !poller.Polling?
    ensures var r := Delivered(s, d, c, x, poller);
            QueueOk(r) && HandedOk(r.handedTo, r.conns) && OffersOk(texts, r.conns, r.handedTo, r.dequeued)
            && ReceivedOk(r) && PollersOk(r) && LoggedOk(r)
  {
    assert OfferOk(texts, c, s.conns[c].phase.offer.value, s.handedTo, s.dequeued);
    assert PollerOk(d, s.pollers[d], s.received[d], s.conns);
    SetPhaseKeepsBooks(texts, s, c, Finished);
    var r := Delivered(s, d, c, x, poller);
    assert DeliveryOk(d, x, r.conns, r.handedTo, r.dequeued);
    assert HistoryOk(d, s.received[d], r.conns, r.handedTo, r.dequeued);
    assert HistoryOk(d, r.received[d], r.conns, r.handedTo, r.dequeued);
  }

  lemma DeliveredKeepsAcks(texts: Texts, s: State, d: nat, c: nat, x: Delivery, poller: Poller)
    requires Books(texts, s) && d in s.pollers && s.pollers[d] == Polling(c) && c < |s.conns| && Offering(s.conns[c])
    requires x.index == s.conns[c].phase.offer.value.index < |s.dequeued| && x.command == s.dequeued[x.index]
    requires poller == match texts.marshalAck(Taken(x.command)) 
      case Some(text) => Owing(x.index, text)
      case None => Idle
    ensures var r := Delivered(s, d, c, x, poller);
            AcksOk(texts, r.conns, r.received, r.dequeued) && OwingOk(texts, r)
  {
    OfferIsNew(texts, s, c);
    var r := Delivered(s, d, c, x, poller);
    assert x in r.received[d];
    forall e, y | e in s.received && y in s.received[e] ensures y in r.received[e] {
    }
  }

  lemma ReceiveKeepsBooks(texts: Texts, s: State, d: nat, c: nat)
    requires texts.Faithful() && Books(texts, s)
    requires d in s.pollers && s.pollers[d] == Polling(c) && c < |s.conns| && Offering(s.conns[c])
    ensures Books(texts, ApplyReceive(texts, SetPhase(s, c, Finished), d, s.conns[c].phase.offer.value))
  {
    var offer := s.conns[c].phase.offer.value;
    assert OfferOk(texts, c, offer, s.handedTo, s.dequeued);
    var command := s.dequeued[offer.index];
    if offer.text == "" {
      SetPhaseKeepsBooks(texts, s, c, Finished);
      GiveUpKeepsBooks(texts, SetPhase(s, c, Finished), d);
    } else {
      assert texts.unmarshal(offer.text) == Some(command);
      var x := Delivery(offer.index, command);
      var poller := match texts.marshalAck(Taken(command)) case Some(text) => Owing(x.index, text) case None => Idle;
      DeliveredKeepsHistory(texts, s, d, c, x, poller);
      DeliveredKeepsAcks(texts, s, d, c, x, poller);
    }
  }

  lemma WriteKeepsBooks(texts: Texts, s: State, c: nat, arrives: bool)
    requires texts.Faithful() && Books(texts, s) && Enabled(texts, s, Write(c, arrives))
    ensures Books(texts, ApplyWrite(texts, s, c, arrives))
  {
    var d, next := s.conns[c].drone, SetPhase(s, c, Finished);
    SetPhaseKeepsBooks(texts, s, c, Finished);
    if arrives {
      if s.pollers[d] == Polling(c) && s.conns[c].phase.offer.Some? {
        ReceiveKeepsBooks(texts, s, d, c);
      } else {
        GiveUpKeepsBooks(texts, next, d);
      }
    }
  }

  lemma StepKeepsBooks(texts: Texts, s: State, step: Step)
    requires texts.Faithful() && Books(texts, s) && Enabled(texts, s, step)
    ensures Books(texts, Apply(texts, s, step))
  {
    match step
    case Enqueue(c) => EnqueueKeepsBooks(texts, s, c);
    case OpenPoll(d) => OpenPollKeepsBooks(texts, s, d);
    case OpenAck(d) => OpenAckKeepsBooks(texts, s, d);
    case GiveUp(d) => GiveUpKeepsBooks(texts, s, d);
    case Take(c) => TakeKeepsBooks(texts, s, c);
    case WakeUp(c) => SetPhaseKeepsBooks(texts, s, c, Replying(None));
    case Log(c) => LogKeepsBooks(texts, s, c);
    case Write(c, arrives) => WriteKeepsBooks(texts, s, c, arrives);
    case Drop(c) => SetPhaseKeepsBooks(texts, s, c, Finished);
  }

  // Whatever has been received could be carried, and whatever has been asked or is being
  // acknowledged could be sent.
  ghost predicate Carriage(texts: Texts, s: State) {
    && (forall d, k :: d in s.received && 0 <= k < |s.received[d]| ==> Carried(texts, d, s.received[d][k].command))
    && (forall c :: 0 <= c < |s.conns| ==> RequestEncodes(texts, s.conns[c]))
  }

  predicate RequestEncodes(texts: Texts, conn: Conn) {
    Encode(texts.json, RequestOf(conn)).Ok?
  }

  lemma WriteKeepsCarriage(texts: Texts, s: State, c: nat, arrives: bool)
    requires texts.Faithful() && Books(texts, s) && Carriage(texts, s) && Enabled(texts, s, Write(c, arrives))
    ensures Carriage(texts, ApplyWrite(texts, s, c, arrives))
  {
    if Offering(s.conns[c]) {
      var offer := s.conns[c].phase.offer.value;
      assert OfferOk(texts, c, offer, s.handedTo, s.dequeued);
      assert s.conns[c].request.Poll?;
    }
  }

  lemma OpenAckKeepsCarriage(texts: Texts, s: State, d: nat)
    requires Carriage(texts, s) && Enabled(texts, s, OpenAck(d))
    ensures Carriage(texts, Open(s, d, Acknowledge(s.pollers[d].index, s.pollers[d].text)))
  {
  }

  lemma LogKeepsCarriage(texts: Texts, s: State, c: nat)
    requires Carriage(texts, s) && Enabled(texts, s, Log(c))
    ensures Carriage(texts, ApplyLog(texts, s, c))
  {
  }

  lemma StepKeepsCarriage(texts: Texts, s: State, step: Step)
    requires texts.Faithful() && Books(texts, s) && Carriage(texts, s) && Enabled(texts, s, step)
    ensures Carriage(texts, Apply(texts, s, step))
  {
    match step
    case Write(c, arrives) => WriteKeepsCarriage(texts, s, c, arrives);
    case OpenAck(d) => OpenAckKeepsCarriage(texts, s, d);
    case Log(c) => LogKeepsCarriage(texts, s, c);
    case _ =>
  }

  ghost predicate Inv(texts: Texts, s: State) {
    Books(texts, s) && Carriage(texts, s)
  }

  lemma StepKeepsInv(texts: Texts, s: State, step: Step)
    requires texts.Faithful() && Inv(texts, s) && Enabled(texts, s, step)
    ensures Inv(texts, Apply(texts, s, step))
  {
    StepKeepsBooks(texts, s, step);
    StepKeepsCarriage(texts, s, step);
  }

  // ----- Runs -----

  ghost predicate Possible(texts: Texts, s: State, steps: seq<Step>)
    decreases |steps|
  {
    steps == [] || (Enabled(texts, s, steps[0]) && Possible(texts, Apply(texts, s, steps[0]), steps[1..]))
  }

  ghost function After(texts: Texts, s: State, steps: seq<Step>): State
    requires Possible(texts, s, steps)
    decreases |steps|
  {
    if steps == [] then s else After(texts, Apply(texts, s, steps[0]), steps[1..])
  }

  lemma {:induction false} RunKeepsInv(texts: Texts, s: State, steps: seq<Step>)
    requires texts.Faithful() && Inv(texts, s) && Possible(texts, s, steps)
    ensures Inv(texts, After(texts, s, steps))
    decreases |steps|
  {
    if steps != [] {
      StepKeepsInv(texts, s, steps[0]);
      RunKeepsInv(texts, Apply(texts, s, steps[0]), steps[1..]);
    }
  }

  lemma InitialHistory(s: State)
    requires Initial(s)
    ensures ReceivedOk(s) && LoggedOk(s)
  {
    forall d | d in s.received ensures HistoryOk(d, s.received[d], s.conns, s.handedTo, s.dequeued) {
      assert s.received[d] == [];
    }
    forall d | d in s.logged ensures LogOk(d, s.logged[d], s.conns, s.dequeued) {
      assert s.logged[d] == [];
    }
  }

  lemma InitialCarriage(texts: Texts, s: State)
    requires Initial(s)
    ensures Carriage(texts, s)
  {
    forall d | d in s.received ensures s.received[d] == [] {
    }
  }

  lemma InitialInv(texts: Texts, s: State)
    requires Initial(s)
    ensures Inv(texts, s)
  {
    InitialHistory(s);
    InitialCarriage(texts, s);
  }

  // Nothing is lost or invented between the controller and the handlers, and nothing goes
  // to two of them: commands leave the queue in the order in which they were accepted, each
  // to one connection, and no connection gets two.
  lemma {:induction false} HandedOnce(texts: Texts, s: State, steps: seq<Step>)
    requires texts.Faithful() && Initial(s) && Possible(texts, s, steps)
    ensures var r := After(texts, s, steps);
            && r.accepted == r.dequeued + r.queue && |r.queue| <= 100
            && |r.handedTo| == |r.dequeued|
            && (forall i, j :: 0 <= i < j < |r.handedTo| ==> r.handedTo[i] != r.handedTo[j])
            && (forall d, e, x, y :: d in r.received && e in r.received && x in r.received[d] && y in r.received[e] ==>
                  x.index == y.index ==> d == e && x == y)
  {
    InitialInv(texts, s);
    RunKeepsInv(texts, s, steps);
    var r := After(texts, s, steps);
    forall d, x | d in r.received && x in r.received[d] ensures DeliveryOk(d, x, r.conns, r.handedTo, r.dequeued) {
    }
  }

  // Whether xs is left when some of ys are struck out.
  predicate Subsequence(xs: seq<Command>, ys: seq<Command>) {
    if |xs| == 0 then true
    else if |ys| == 0 then false
    else
      var x, y := xs[|xs| - 1], ys[|ys| - 1];
      (x == y && Subsequence(xs[..|xs| - 1], ys[..|ys| - 1])) || Subsequence(xs, ys[..|ys| - 1])
  }

  function Commands(xs: seq<Delivery>): seq<Command> {
    if xs == [] then [] else Commands(xs[..|xs| - 1]) + [xs[|xs| - 1].command]
  }

  ghost predicate Picks(xs: seq<Delivery>, ys: seq<Command>) {
    Increasing(xs) && forall k :: 0 <= k < |xs| ==> xs[k].index < |ys| && xs[k].command == ys[xs[k].index]
  }

  lemma PicksFewer(xs: seq<Delivery>, ys: seq<Command>, n: nat, m: nat)
    requires Picks(xs, ys) && n <= |xs| && m <= |ys|
    requires n > 0 ==> xs[n - 1].index < m
    ensures Picks(xs[..n], ys[..m])
  {
    forall k | 0 <= k < n ensures xs[k].index < m {
      assert k < n - 1 ==> xs[k].index < xs[n - 1].index;
    }
  }

  // Increasing positions pick out a subsequence.
  lemma {:induction false} PicksSubsequence(xs: seq<Delivery>, ys: seq<Command>)
    requires Picks(xs, ys)
    ensures Subsequence(Commands(xs), ys)
    decreases |ys|
  {
    if xs != [] {
      var n, m := |xs| - 1, |ys| - 1;
      assert xs[n].index <= m;
      if xs[n].index == m {
        PicksFewer(xs, ys, n, m);
        PicksSubsequence(xs[..n], ys[..m]);
        assert Commands(xs)[..|Commands(xs)| - 1] == Commands(xs[..n]);
      } else {
        PicksFewer(xs, ys, n + 1, m);
        assert xs[..n + 1] == xs;
        PicksSubsequence(xs, ys[..m]);
      }
    }
  }

  // However many polls a drone gives up on, what it receives keeps the controller's order.
  lemma {:induction false} ReceivedInOrder(texts: Texts, s: State, steps: seq<Step>, d: nat)
    requires texts.Faithful() && Initial(s) && Possible(texts, s, steps) && d in After(texts, s, steps).received
    ensures var r := After(texts, s, steps); Subsequence(Commands(r.received[d]), r.accepted)
  {
    InitialInv(texts, s);
    RunKeepsInv(texts, s, steps);
    var r := After(texts, s, steps);
    var xs := r.received[d];
    assert HistoryOk(d, xs, r.conns, r.handedTo, r.dequeued);
    forall k | 0 <= k < |xs| ensures xs[k].index < |r.accepted| && xs[k].command == r.accepted[xs[k].index] {
      assert DeliveryOk(d, xs[k], r.conns, r.handedTo, r.dequeued);
    }
    PicksSubsequence(xs, r.accepted);
  }

  // What the base has logged as taken, acknowledgement by acknowledgement.
  ghost function Acknowledged(entries: seq<LogEntry>, conns: seq<Conn>): (xs: seq<Delivery>)
    requires forall e :: e in entries ==> e.conn < |conns| && conns[e.conn].request.Acknowledge?
    ensures |xs| == |entries|
    ensures forall k :: 0 <= k < |xs| ==> xs[k] == Delivery(conns[entries[k].conn].request.index, entries[k].command)
  {
    seq(|entries|, k requires 0 <= k < |entries| => Delivery(conns[entries[k].conn].request.index, entries[k].command))
  }

  lemma {:induction false} DistinctWithin<T>(xs: seq<T>, ys: seq<T>)
    requires forall j, k :: 0 <= j < k < |xs| ==> xs[j] != xs[k]
    requires forall x :: x in xs ==> x in ys
    ensures multiset(xs) <= multiset(ys)
  {
    if xs != [] {
      var most, last := xs[..|xs| - 1], xs[|xs| - 1];
      DistinctWithin(most, ys);
      assert xs == most + [last];
      assert last !in most;
      assert last in xs;
    }
  }

  // The base never logs an acknowledgement of what was not received, nor the same one twice.
  lemma {:induction false} LoggedWasReceived(texts: Texts, s: State, steps: seq<Step>, d: nat)
    requires texts.Faithful() && Initial(s) && Possible(texts, s, steps) && d in After(texts, s, steps).received
    ensures var r := After(texts, s, steps);
            && d in r.logged
            && (forall e :: e in r.logged[d] ==> e.conn < |r.conns| && r.conns[e.conn].request.Acknowledge?)
            && multiset(Acknowledged(r.logged[d], r.conns)) <= multiset(r.received[d])
  {
    InitialInv(texts, s);
    RunKeepsInv(texts, s, steps);
    var r := After(texts, s, steps);
    var entries := r.logged[d];
    assert LogOk(d, entries, r.conns, r.dequeued);
    forall k | 0 <= k < |entries| ensures EntryOk(d, entries[k], r.conns, r.dequeued) {
    }
    LoggedWithin(texts, r, d);
  }

  lemma LoggedWithin(texts: Texts, r: State, d: nat)
    requires Inv(texts, r) && d in r.logged && LogOk(d, r.logged[d], r.conns, r.dequeued)
    requires forall e :: e in r.logged[d] ==> e.conn < |r.conns| && r.conns[e.conn].request.Acknowledge?
    ensures d in r.received && multiset(Acknowledged(r.logged[d], r.conns)) <= multiset(r.received[d])
  {
    var entries := r.logged[d];
    var xs := Acknowledged(entries, r.conns);
    forall k | 0 <= k < |xs| ensures xs[k] in r.received[d] {
      assert EntryOk(d, entries[k], r.conns, r.dequeued);
      var conn := r.conns[entries[k].conn];
      assert AckOk(texts, conn.drone, conn.request.index, conn.request.text, r.received, r.dequeued);
    }
    forall j, k | 0 <= j < k < |xs| ensures xs[j] != xs[k] {
      assert entries[j].conn != entries[k].conn;
    }
    DistinctWithin(xs, r.received[d]);
  }

  ghost predicate Has(xs: seq<Delivery>, i: nat) {
    exists k :: 0 <= k < |xs| && xs[k].index == i
  }

  // A drone gets a command only by the answer to the poll it is waiting for, and only if there
  // is a text.
  lemma WriteGives(texts: Texts, s: State, c: nat, arrives: bool, d: nat, i: nat)
    requires Enabled(texts, s, Write(c, arrives)) && d in s.received
    ensures var r := ApplyWrite(texts, s, c, arrives);
            && d in r.received
            && (Has(r.received[d], i) ==>
                  || Has(s.received[d], i)
                  || (Offering(s.conns[c]) && s.conns[c].phase.offer.value.index == i
                      && s.conns[c].phase.offer.value.text != ""
                      && d == s.conns[c].drone && d in s.pollers && s.pollers[d] == Polling(c)))
  {
    var before, after := s.received[d], ApplyWrite(texts, s, c, arrives).received[d];
    assert before <= after;
    assert forall k :: 0 <= k < |before| ==> before[k] == after[k];
  }

  // Nobody has command i, and it is too late for its connection c: its drone has stopped
  // waiting on it, or it has no text to offer any more.
  ghost predicate TooLate(s: State, c: nat, i: nat) {
    && i < |s.handedTo| && s.handedTo[i] == c && c < |s.conns|
    && (forall d :: d in s.received ==> !Has(s.received[d], i))
    && !s.conns[c].phase.Waiting? && !(Awaited(s, c) && Offering(s.conns[c]) && s.conns[c].phase.offer.value.text != "")
  }

  // Some drone still waits for an answer to its poll on c.
  ghost predicate Awaited(s: State, c: nat) {
    exists d :: d in s.pollers && s.pollers[d] == Polling(c)
  }

  lemma WriteGivesNobody(texts: Texts, s: State, b: nat, arrives: bool, c: nat, i: nat)
    requires Inv(texts, s) && Enabled(texts, s, Write(b, arrives)) && TooLate(s, c, i)
    ensures forall d :: d in ApplyWrite(texts, s, b, arrives).received ==>
              !Has(ApplyWrite(texts, s, b, arrives).received[d], i)
  {
    var r := ApplyWrite(texts, s, b, arrives);
    if Offering(s.conns[b]) {
      assert OfferOk(texts, b, s.conns[b].phase.offer.value, s.handedTo, s.dequeued);
    }
    forall d | d in s.received ensures !Has(r.received[d], i) {
      WriteGives(texts, s, b, arrives, d, i);
    }
  }

  lemma WriteAwaits(texts: Texts, s: State, b: nat, arrives: bool, c: nat)
    requires Enabled(texts, s, Write(b, arrives)) && Awaited(ApplyWrite(texts, s, b, arrives), c)
    ensures Awaited(s, c)
  {
    var r := ApplyWrite(texts, s, b, arrives);
    var d :| d in r.pollers && r.pollers[d] == Polling(c);
    assert d in s.pollers && s.pollers[d] == Polling(c);
  }

  lemma WriteTooLate(texts: Texts, s: State, b: nat, arrives: bool, c: nat, i: nat)
    requires Inv(texts, s) && Enabled(texts, s, Write(b, arrives)) && TooLate(s, c, i)
    ensures TooLate(ApplyWrite(texts, s, b, arrives), c, i)
  {
    WriteGivesNobody(texts, s, b, arrives, c, i);
    var r := ApplyWrite(texts, s, b, arrives);
    assert r.conns == s.conns[b := s.conns[b].(phase := Finished)] && r.handedTo == s.handedTo;
    if Awaited(r, c) {
      WriteAwaits(texts, s, b, arrives, c);
    }
  }

  lemma TakeTooLate(texts: Texts, s: State, b: nat, c: nat, i: nat)
    requires Inv(texts, s) && Enabled(texts, s, Take(b)) && TooLate(s, c, i)
    ensures TooLate(ApplyTake(texts, s, b), c, i)
  {
    assert b != c;
  }

  lemma OpenTooLate(s: State, d: nat, request: Request, c: nat, i: nat)
    requires d in s.pollers && TooLate(s, c, i)
    ensures TooLate(Open(s, d, request), c, i)
  {
    var r := Open(s, d, request);
    assert r.conns[c] == s.conns[c];
    if Awaited(r, c) {
      var e :| e in r.pollers && r.pollers[e] == Polling(c);
      assert e in s.pollers && s.pollers[e] == Polling(c);
    }
  }

  lemma PhaseTooLate(s: State, b: nat, phase: Phase, c: nat, i: nat)
    requires b < |s.conns| && TooLate(s, c, i) && (phase == Finished || phase == Replying(None))
    ensures TooLate(SetPhase(s, b, phase), c, i)
  {
  }

  lemma LogTooLate(texts: Texts, s: State, b: nat, c: nat, i: nat)
    requires Enabled(texts, s, Log(b)) && TooLate(s, c, i)
    ensures TooLate(ApplyLog(texts, s, b), c, i)
  {
    PhaseTooLate(s, b, Replying(None), c, i);
  }

  lemma StepTooLate(texts: Texts, s: State, step: Step, c: nat, i: nat)
    requires Inv(texts, s) && Enabled(texts, s, step) && TooLate(s, c, i)
    ensures TooLate(Apply(texts, s, step), c, i)
  {
    match step
    case Write(b, arrives) => WriteTooLate(texts, s, b, arrives, c, i);
    case Take(b) => TakeTooLate(texts, s, b, c, i);
    case OpenPoll(d) => OpenTooLate(s, d, Poll, c, i);
    case OpenAck(d) => OpenTooLate(s, d, Acknowledge(s.pollers[d].index, s.pollers[d].text), c, i);
    case WakeUp(b) => PhaseTooLate(s, b, Replying(None), c, i);
    case Drop(b) => PhaseTooLate(s, b, Finished, c, i);
    case Log(b) => LogTooLate(texts, s, b, c, i);
    case _ =>
  }

  lemma {:induction false} TooLateForGood(texts: Texts, s: State, steps: seq<Step>, c: nat, i: nat)
    requires texts.Faithful() && Inv(texts, s) && Possible(texts, s, steps) && TooLate(s, c, i)
    ensures TooLate(After(texts, s, steps), c, i)
    decreases |steps|
  {
    if steps != [] {
      StepKeepsInv(texts, s, steps[0]);
      StepTooLate(texts, s, steps[0], c, i);
      TooLateForGood(texts, Apply(texts, s, steps[0]), steps[1..], c, i);
    }
  }

  lemma AwaitedByItsDrone(texts: Texts, s: State, c: nat)
    requires Inv(texts, s) && c < |s.conns|
    ensures Awaited(s, c) <==> s.conns[c].drone in s.pollers && s.pollers[s.conns[c].drone] == Polling(c)
  {
    forall e | e in s.pollers && s.pollers[e] == Polling(c) ensures e == s.conns[c].drone {
      assert PollerOk(e, s.pollers[e], s.received[e], s.conns);
    }
  }

  // What no step takes back.
  ghost predicate Extends(s: State, r: State) {
    && s.accepted <= r.accepted && s.handedTo <= r.handedTo && r.pollers.Keys == s.pollers.Keys
    && |s.conns| <= |r.conns| && forall c :: 0 <= c < |s.conns| ==> Continues(s.conns[c], r.conns[c])
  }

  predicate Continues(conn: Conn, later: Conn) {
    later.drone == conn.drone && (conn.phase.Finished? ==> later.phase.Finished?)
  }

  lemma StepExtends(texts: Texts, s: State, step: Step)
    requires Enabled(texts, s, step)
    ensures Extends(s, Apply(texts, s, step))
  {
  }

  lemma {:induction false} RunExtends(texts: Texts, s: State, steps: seq<Step>)
    requires Possible(texts, s, steps)
    ensures Extends(s, After(texts, s, steps))
    decreases |steps|
  {
    if steps != [] {
      StepExtends(texts, s, steps[0]);
      RunExtends(texts, Apply(texts, s, steps[0]), steps[1..]);
    }
  }

  // ----- Commands that are lost -----

  // The connection that took command i is over, and no drone has it.
  ghost predicate Missed(s: State, i: nat) {
    && i < |s.handedTo| && s.handedTo[i] < |s.conns| && s.conns[s.handedTo[i]].phase.Finished?
    && forall d :: d in s.received ==> !Has(s.received[d], i)
  }

  // A command that has missed its drone is never handed out again, in any continuation: the
  // queue delivers at most once, and a reply that fails to arrive is a command lost.
  lemma MissedForGood(texts: Texts, s: State, steps: seq<Step>, i: nat)
    requires texts.Faithful() && Inv(texts, s) && Possible(texts, s, steps) && Missed(s, i)
    ensures Missed(After(texts, s, steps), i)
  {
    var c := s.handedTo[i];
    TooLateForGood(texts, s, steps, c, i);
    RunExtends(texts, s, steps);
    assert Continues(s.conns[c], After(texts, s, steps).conns[c]);
  }

  // A reply that fails to arrive is such a miss: the command is lost, whatever follows.
  lemma UndeliveredIsLost(texts: Texts, s: State, c: nat, steps: seq<Step>)
    requires texts.Faithful() && Inv(texts, s) && Enabled(texts, s, Write(c, false)) && Offering(s.conns[c])
    requires Possible(texts, Apply(texts, s, Write(c, false)), steps)
    ensures var r := After(texts, Apply(texts, s, Write(c, false)), steps);
            forall d :: d in r.received ==> !Has(r.received[d], s.conns[c].phase.offer.value.index)
  {
    var i, next := s.conns[c].phase.offer.value.index, Apply(texts, s, Write(c, false));
    OfferedToNobody(texts, s, c);
    StepKeepsInv(texts, s, Write(c, false));
    MissedForGood(texts, next, steps, i);
  }

  lemma OfferedToNobody(texts: Texts, s: State, c: nat)
    requires Inv(texts, s) && c < |s.conns| && Offering(s.conns[c])
    ensures var i := s.conns[c].phase.offer.value.index;
            i < |s.handedTo| && s.handedTo[i] == c && forall d :: d in s.received ==> !Has(s.received[d], i)
  {
    var i := s.conns[c].phase.offer.value.index;
    assert OfferOk(texts, c, s.conns[c].phase.offer.value, s.handedTo, s.dequeued);
    forall d, k | d in s.received && 0 <= k < |s.received[d]| ensures s.received[d][k].index != i {
      assert DeliveryOk(d, s.received[d][k], s.conns, s.handedTo, s.dequeued);
    }
  }

  // ----- Which commands can still arrive -----

  // Some run leads from s to r.
  ghost predicate Leads(texts: Texts, s: State, r: State) {
    exists steps :: Possible(texts, s, steps) && After(texts, s, steps) == r
  }

  lemma LeadsStep(texts: Texts, s: State, step: Step)
    requires Enabled(texts, s, step)
    ensures Leads(texts, s, Apply(texts, s, step))
  {
    OneStep(texts, s, step);
  }

  lemma {:induction false} OneStep(texts: Texts, s: State, step: Step)
    requires Enabled(texts, s, step)
    ensures Possible(texts, s, [step]) && After(texts, s, [step]) == Apply(texts, s, step)
  {
    var r := Apply(texts, s, step);
    assert [step][1..] == [];
    assert Possible(texts, r, []) && After(texts, r, []) == r;
  }

  lemma LeadsOn(texts: Texts, s: State, m: State, r: State)
    requires Leads(texts, s, m) && Leads(texts, m, r)
    ensures Leads(texts, s, r)
  {
    var first :| Possible(texts, s, first) && After(texts, s, first) == m;
    var second :| Possible(texts, m, second) && After(texts, m, second) == r;
    RunsJoin(texts, s, first, second);
  }

  lemma {:induction false} RunsJoin(texts: Texts, s: State, first: seq<Step>, second: seq<Step>)
    requires Possible(texts, s, first) && Possible(texts, After(texts, s, first), second)
    ensures Possible(texts, s, first + second)
    ensures After(texts, s, first + second) == After(texts, After(texts, s, first), second)
    decreases |first|
  {
    if first == [] {
      assert first + second == second;
    } else {
      RunsJoin(texts, Apply(texts, s, first[0]), first[1..], second);
      assert (first + second)[1..] == first[1..] + second;
    }
  }

  ghost predicate SomeoneHas(s: State, i: nat) {
    exists d :: d in s.received && Has(s.received[d], i)
  }

  // Some continuation brings command i to a drone.
  ghost predicate Deliverable(texts: Texts, s: State, i: nat) {
    exists steps :: Possible(texts, s, steps) && SomeoneHas(After(texts, s, steps), i)
  }

  // The drone that has command i could have it carried to it, and is the one that asked.
  lemma CarriedTo(texts: Texts, s: State, r: State, d: nat, i: nat)
    requires Inv(texts, s) && Inv(texts, r) && Extends(s, r) && i < |s.accepted|
    requires d in r.received && Has(r.received[d], i)
    ensures d in s.pollers && CanGet(texts, d, s.accepted[i])
    ensures i < |s.handedTo| ==> s.handedTo[i] < |s.conns| && s.conns[s.handedTo[i]].drone == d
  {
    var k :| 0 <= k < |r.received[d]| && r.received[d][k].index == i;
    assert DeliveryOk(d, r.received[d][k], r.conns, r.handedTo, r.dequeued);
    assert RequestEncodes(texts, r.conns[r.handedTo[i]]);
    if i < |s.handedTo| {
      assert Continues(s.conns[s.handedTo[i]], r.conns[s.handedTo[i]]);
    }
    assert r.accepted[i] == r.dequeued[i];
  }

  // Exactly when a command on offer can still reach a drone: the drone that asked must still
  // be waiting, and the reply must be one that can be written.
  lemma DeliverableExactlyWhen(texts: Texts, s: State, c: nat)
    requires texts.Faithful() && Inv(texts, s) && c < |s.conns| && Offering(s.conns[c])
    ensures var d, i := s.conns[c].drone, s.conns[c].phase.offer.value.index;
            && i < |s.dequeued|
            && (Deliverable(texts, s, i)
                <==> d in s.pollers && s.pollers[d] == Polling(c) && Carried(texts, d, s.dequeued[i]))
  {
    var d, offer := s.conns[c].drone, s.conns[c].phase.offer.value;
    assert OfferOk(texts, c, offer, s.handedTo, s.dequeued);
    assert s.accepted[offer.index] == s.dequeued[offer.index];
    if d in s.pollers && s.pollers[d] == Polling(c) && Carried(texts, d, s.dequeued[offer.index]) {
      ArrivesAtOnce(texts, s, c);
    } else if Deliverable(texts, s, offer.index) {
      OnlyWhenAwaited(texts, s, c, offer.index);
      OnlyWhenCarried(texts, s, offer.index);
    }
  }

  lemma ArrivesAtOnce(texts: Texts, s: State, c: nat)
    requires texts.Faithful() && Inv(texts, s) && c < |s.conns| && Offering(s.conns[c])
    requires s.conns[c].drone in s.pollers && s.pollers[s.conns[c].drone] == Polling(c)
    requires s.conns[c].phase.offer.value.index < |s.dequeued|
    requires Carried(texts, s.conns[c].drone, s.dequeued[s.conns[c].phase.offer.value.index])
    ensures Deliverable(texts, s, s.conns[c].phase.offer.value.index)
  {
    var d, offer := s.conns[c].drone, s.conns[c].phase.offer.value;
    assert OfferOk(texts, c, offer, s.handedTo, s.dequeued);
    assert s.conns[c].request.Poll?;
    var r := Apply(texts, s, Write(c, true));
    assert r.received[d][|s.received[d]|].index == offer.index;
    OneStep(texts, s, Write(c, true));
    assert SomeoneHas(r, offer.index);
  }

  lemma OnlyWhenAwaited(texts: Texts, s: State, c: nat, i: nat)
    requires texts.Faithful() && Inv(texts, s) && Deliverable(texts, s, i)
    requires i < |s.handedTo| && s.handedTo[i] == c && c < |s.conns| && !s.conns[c].phase.Finished?
    ensures s.conns[c].drone in s.pollers && s.pollers[s.conns[c].drone] == Polling(c)
    ensures Offering(s.conns[c])
  {
    var steps :| Possible(texts, s, steps) && SomeoneHas(After(texts, s, steps), i);
    forall e, k | e in s.received && 0 <= k < |s.received[e]| ensures s.received[e][k].index != i {
      assert DeliveryOk(e, s.received[e][k], s.conns, s.handedTo, s.dequeued);
    }
    if TooLate(s, c, i) {
      TooLateForGood(texts, s, steps, c, i);
    }
    AwaitedByItsDrone(texts, s, c);
  }

  lemma OnlyWhenCarried(texts: Texts, s: State, i: nat)
    requires texts.Faithful() && Inv(texts, s) && Deliverable(texts, s, i) && i < |s.accepted|
    ensures exists d :: d in s.pollers && CanGet(texts, d, s.accepted[i])
    ensures i < |s.handedTo| ==>
              s.handedTo[i] < |s.conns| && Carried(texts, s.conns[s.handedTo[i]].drone, s.accepted[i])
  {
    var steps :| Possible(texts, s, steps) && SomeoneHas(After(texts, s, steps), i);
    var r := After(texts, s, steps);
    RunKeepsInv(texts, s, steps);
    RunExtends(texts, s, steps);
    var d :| d in r.received && Has(r.received[d], i);
    CarriedTo(texts, s, r, d, i);
  }

  // A handler that dequeues for a drone which has stopped waiting loses the command.
  lemma TakenTooLate(texts: Texts, s: State, c: nat)
    requires texts.Faithful() && Inv(texts, s) && Enabled(texts, s, Take(c)) && !Awaited(s, c)
    ensures !Deliverable(texts, Apply(texts, s, Take(c)), |s.dequeued|)
  {
    StepKeepsInv(texts, s, Take(c));
    DeliverableExactlyWhen(texts, Apply(texts, s, Take(c)), c);
  }

  // A drone gives up whatever it was doing and opens a poll, which takes the next command.
  lemma PollTakes(texts: Texts, s: State, d: nat)
    requires d in s.pollers && s.queue != [] && Encode(texts.json, ControllerQueue.Poll(d)).Ok?
    ensures Leads(texts, s, Took(texts, s, d))
  {
    var free := s.(pollers := s.pollers[d := Idle]);
    var polling := Open(free, d, Poll);
    LeadsStep(texts, s, GiveUp(d));
    LeadsStep(texts, free, OpenPoll(d));
    LeadsStep(texts, polling, Take(|s.conns|));
    TookIs(texts, s, d);
    LeadsOn(texts, s, free, polling);
    LeadsOn(texts, s, polling, Took(texts, s, d));
  }

  lemma TookIs(texts: Texts, s: State, d: nat)
    requires d in s.pollers && s.queue != []
    ensures ApplyTake(texts, Open(s.(pollers := s.pollers[d := Idle]), d, Poll), |s.conns|) == Took(texts, s, d)
  {
    var r := ApplyTake(texts, Open(s.(pollers := s.pollers[d := Idle]), d, Poll), |s.conns|);
    assert r.conns == Took(texts, s, d).conns;
    assert r.pollers == Took(texts, s, d).pollers;
  }

  function Took(texts: Texts, s: State, d: nat): State
    requires s.queue != []
  {
    var offer := Offer(|s.dequeued|, CommandText(texts, s.queue[0]));
    s.(conns := s.conns + [Conn(d, Poll, Replying(Some(offer)))], pollers := s.pollers[d := Polling(|s.conns|)],
       queue := s.queue[1..], dequeued := s.dequeued + [s.queue[0]], handedTo := s.handedTo + [|s.conns|])
  }

  // Other polls take what is in front of command i.
  lemma {:induction false} Reaches(texts: Texts, s: State, d: nat, i: nat) returns (r: State)
    requires QueueOk(s) && d in s.pollers && |s.dequeued| <= i < |s.accepted|
    requires Encode(texts.json, ControllerQueue.Poll(d)).Ok?
    ensures Leads(texts, s, r) && QueueOk(r)
    ensures r.accepted == s.accepted && |r.dequeued| == i && r.queue != [] && r.queue[0] == s.accepted[i]
    ensures d in r.pollers
    decreases i - |s.dequeued|
  {
    if i == |s.dequeued| {
      r := s;
      assert Possible(texts, s, []) && After(texts, s, []) == s;
    } else {
      var next := Took(texts, s, d);
      assert s.dequeued + s.queue == next.dequeued + next.queue;
      r := Reaches(texts, next, d, i);
      PollTakes(texts, s, d);
      LeadsOn(texts, s, next, r);
    }
  }

  // The drone gets the next command, if it can be carried to it.
  function Fetched(texts: Texts, s: State, d: nat): State
    requires d in s.received && d in s.pollers && s.queue != []
  {
    ApplyWrite(texts, Took(texts, s, d), |s.conns|, true)
  }

  lemma Fetches(texts: Texts, s: State, d: nat)
    requires d in s.pollers && d in s.received && s.queue != [] && CanGet(texts, d, s.queue[0])
    ensures Leads(texts, s, Fetched(texts, s, d))
  {
    PollTakes(texts, s, d);
    WriteEnabled(texts, s, d);
    LeadsStep(texts, Took(texts, s, d), Write(|s.conns|, true));
    LeadsOn(texts, s, Took(texts, s, d), Fetched(texts, s, d));
  }

  lemma WriteEnabled(texts: Texts, s: State, d: nat)
    requires d in s.received && s.queue != [] && Carried(texts, d, s.queue[0])
    ensures Enabled(texts, Took(texts, s, d), Write(|s.conns|, true))
  {
    assert Reply(texts, Took(texts, s, d).conns[|s.conns|]) == CommandReply(texts, d, s.queue[0]);
  }

  lemma FetchedIs(texts: Texts, s: State, d: nat)
    requires texts.Faithful() && d in s.received && d in s.pollers && s.queue != [] && texts.marshal(s.queue[0]).Some?
    ensures var r, ack := Fetched(texts, s, d), texts.marshalAck(Taken(s.queue[0]));
            && r.received == s.received[d := s.received[d] + [Delivery(|s.dequeued|, s.queue[0])]]
            && r.queue == s.queue[1..] && r.logged == s.logged
            && r.pollers == s.pollers[d := if ack.Some? then Owing(|s.dequeued|, ack.value) else Idle]
  {
    var text := texts.marshal(s.queue[0]).value;
    assert CommandIn(texts, text) == Some(s.queue[0]);
  }

  lemma QueuedReaches(texts: Texts, s: State, d: nat, i: nat)
    requires texts.Faithful() && QueueOk(s) && d in s.pollers
    requires |s.dequeued| <= i < |s.accepted| && CanGet(texts, d, s.accepted[i])
    ensures Deliverable(texts, s, i)
  {
    var before := Reaches(texts, s, d, i);
    Fetches(texts, before, d);
    FetchedIs(texts, before, d);
    var r := Fetched(texts, before, d);
    assert r.received[d][|before.received[d]|].index == i;
    LeadsOn(texts, s, before, r);
    assert SomeoneHas(r, i);
  }

  // Exactly when a command still in the queue can reach a drone: there is a drone that can ask
  // for it and that it can be carried to.
  lemma QueuedExactlyWhen(texts: Texts, s: State, i: nat)
    requires texts.Faithful() && Inv(texts, s) && |s.dequeued| <= i < |s.accepted|
    ensures Deliverable(texts, s, i) <==> exists d :: d in s.pollers && CanGet(texts, d, s.accepted[i])
  {
    if Deliverable(texts, s, i) {
      OnlyWhenCarried(texts, s, i);
    }
    if d :| d in s.pollers && CanGet(texts, d, s.accepted[i]) {
      QueuedReaches(texts, s, d, i);
    }
  }

  // Every accepted command that nobody has yet: it can still reach a drone if and only if it
  // is in the queue and some drone can get it, or is on offer to a drone that is still
  // waiting and to which it can be carried.
  lemma AcceptedExactlyWhen(texts: Texts, s: State, i: nat)
    requires texts.Faithful() && Inv(texts, s) && i < |s.accepted| && !SomeoneHas(s, i)
    ensures i < |s.dequeued| ==> i < |s.handedTo| && s.handedTo[i] < |s.conns|
    ensures Deliverable(texts, s, i) <==>
              if i < |s.dequeued| then
                var c := s.handedTo[i];
                Offering(s.conns[c]) && Awaited(s, c) && Carried(texts, s.conns[c].drone, s.accepted[i])
              else
                exists d :: d in s.pollers && CanGet(texts, d, s.accepted[i])
  {
    if i >= |s.dequeued| {
      QueuedExactlyWhen(texts, s, i);
    } else {
      var c := s.handedTo[i];
      if Offering(s.conns[c]) {
        OfferIsFor(texts, s, c, i);
        AwaitedByItsDrone(texts, s, c);
        DeliverableExactlyWhen(texts, s, c);
      } else {
        forall steps | Possible(texts, s, steps) ensures !SomeoneHas(After(texts, s, steps), i) {
          TooLateForGood(texts, s, steps, c, i);
        }
      }
    }
  }

  lemma OfferIsFor(texts: Texts, s: State, c: nat, i: nat)
    requires Inv(texts, s) && i < |s.handedTo| && s.handedTo[i] == c < |s.conns| && Offering(s.conns[c])
    ensures s.conns[c].phase.offer.value.index == i
  {
    assert OfferOk(texts, c, s.conns[c].phase.offer.value, s.handedTo, s.dequeued);
    var j := s.conns[c].phase.offer.value.index;
    assert s.handedTo[i] == s.handedTo[j];
  }

  // Four steps lose a command: it is accepted, a handler takes it for a poll, and the drone
  // gives that poll up.
  lemma CommandLost(texts: Texts, d: nat, command: Command) returns (s: State, r: State)
    requires texts.Faithful() && Encode(texts.json, ControllerQueue.Poll(d)).Ok?
    ensures s == OneDrone(d) && Initial(s)
    ensures Possible(texts, s, LosingRun(d, command)) && r == After(texts, s, LosingRun(d, command))
    ensures r.accepted == [command] && !Deliverable(texts, r, 0)
  {
    s := OneDrone(d);
    r := LosingRuns(texts, d, command);
    InitialInv(texts, s);
    RunKeepsInv(texts, s, LosingRun(d, command));
    DeliverableExactlyWhen(texts, r, 0);
  }

  lemma LosingRuns(texts: Texts, d: nat, command: Command) returns (r: State)
    requires Encode(texts.json, ControllerQueue.Poll(d)).Ok?
    ensures Possible(texts, OneDrone(d), LosingRun(d, command))
    ensures r == After(texts, OneDrone(d), LosingRun(d, command))
    ensures r.accepted == r.dequeued == [command] && r.pollers == map[d := Idle]
    ensures r.conns == [Conn(d, Poll, Replying(Some(Offer(0, CommandText(texts, command)))))]
  {
    var queued := Apply(texts, OneDrone(d), Enqueue(command));
    var polling := Apply(texts, queued, OpenPoll(d));
    var taken := Apply(texts, polling, Take(0));
    r := Apply(texts, taken, GiveUp(d));
    var steps := LosingRun(d, command);
    assert steps[1..] == [OpenPoll(d), Take(0), GiveUp(d)] && steps[1..][1..] == [Take(0), GiveUp(d)];
    assert steps[1..][1..][1..] == [GiveUp(d)];
    OneStep(texts, taken, GiveUp(d));
    assert Possible(texts, polling, [Take(0), GiveUp(d)]) && After(texts, polling, [Take(0), GiveUp(d)]) == r;
    assert Possible(texts, queued, steps[1..]) && After(texts, queued, steps[1..]) == r;
  }

  function OneDrone(d: nat): State {
    State([], [], [], [], [], map[d := Idle], map[d := []], map[d := []])
  }

  function LosingRun(d: nat, command: Command): seq<Step> {
    [Enqueue(command), OpenPoll(d), Take(0), GiveUp(d)]
  }

  // One step loses a command whose text alone is larger than a message may be: the queue
  // accepts it, although no reply can ever carry it.  JSON never shortens what it quotes.
  lemma OversizedLost(texts: Texts, command: Command) returns (s: State, r: State)
    requires texts.Faithful() && texts.json.NeverShorter()
    requires texts.marshal(command).Some? && |texts.marshal(command).value| > Frames.MAX_PAYLOAD
    ensures s == OneDrone(0) && Initial(s)
    ensures Possible(texts, s, [Enqueue(command)]) && r == After(texts, s, [Enqueue(command)])
    ensures r.accepted == r.queue == [command] && !Deliverable(texts, r, 0)
    ensures forall id, given ::
              Written(texts.json, Response(texts, ControllerQueue.Poll(id), Some(command), given)) == []
  {
    s := OneDrone(0);
    OneStep(texts, s, Enqueue(command));
    r := Apply(texts, s, Enqueue(command));
    InitialInv(texts, s);
    RunKeepsInv(texts, s, [Enqueue(command)]);
    QueuedExactlyWhen(texts, r, 0);
    NoReply(texts, command);
  }

  lemma NoReply(texts: Texts, command: Command)
    requires texts.json.NeverShorter()
    requires texts.marshal(command).Some? && |texts.marshal(command).value| > Frames.MAX_PAYLOAD
    ensures forall id :: !Carried(texts, id, command)
    ensures forall id, given ::
              Written(texts.json, Response(texts, ControllerQueue.Poll(id), Some(command), given)) == []
  {
    Handlers.Distinct();
    forall id ensures !Encode(texts.json, CommandReply(texts, id, command)).Ok? {
    }
  }

  // ----- Which commands can be acknowledged -----

  // The base has logged the acknowledgement of command i.
  ghost predicate LoggedFor(s: State, d: nat, i: nat) {
    d in s.logged && exists k :: 0 <= k < |s.logged[d]| && EntryFor(s, s.logged[d][k], i)
  }

  predicate EntryFor(s: State, e: LogEntry, i: nat) {
    e.conn < |s.conns| && s.conns[e.conn].request.Acknowledge? && s.conns[e.conn].request.index == i
  }

  ghost predicate Loggable(texts: Texts, s: State, i: nat) {
    exists steps :: Possible(texts, s, steps) && exists d :: LoggedFor(After(texts, s, steps), d, i)
  }

  // The drone opens a connection for its acknowledgement, the base logs it, and the drone
  // waits no longer.
  lemma Acknowledges(texts: Texts, s: State, d: nat, command: Command) returns (r: State)
    requires texts.Faithful() && d in s.pollers && d in s.logged && s.pollers[d].Owing?
    requires texts.marshalAck(Taken(command)) == Some(s.pollers[d].text) && Acknowledgeable(texts, d, command)
    ensures Leads(texts, s, r)
    ensures r.received == s.received && r.queue == s.queue && r.pollers == s.pollers[d := Idle]
    ensures r.logged == s.logged[d := s.logged[d] + [LogEntry(|s.conns|, command)]]
    ensures EntryFor(r, LogEntry(|s.conns|, command), s.pollers[d].index)
  {
    var c, text := |s.conns|, s.pollers[d].text;
    var first := Open(s, d, Acknowledge(s.pollers[d].index, text));
    LeadsStep(texts, s, OpenAck(d));
    assert AckIn(texts, text) == Some(Taken(command));
    var second := ApplyLog(texts, first, c);
    LeadsStep(texts, first, Log(c));
    r := second.(pollers := second.pollers[d := Idle]);
    LeadsStep(texts, second, GiveUp(d));
    LeadsOn(texts, s, first, second);
    LeadsOn(texts, s, second, r);
  }

  // Drone d can get the next command and acknowledge it.
  predicate Writable(texts: Texts, s: State, d: nat) {
    s.queue != [] && CanGet(texts, d, s.queue[0]) && Acknowledgeable(texts, d, s.queue[0])
  }

  // However many handlers hang about, a drone can get the next command, and the base can log
  // that it did.
  lemma DeliveryCompletes(texts: Texts, s: State, d: nat) returns (steps: seq<Step>)
    requires texts.Faithful() && QueueOk(s) && d in s.pollers && Writable(texts, s, d)
    ensures Possible(texts, s, steps)
    ensures var r := After(texts, s, steps);
            && r.queue == s.queue[1..] && r.pollers == s.pollers[d := Idle]
            && r.received == s.received[d := s.received[d] + [Delivery(|s.dequeued|, s.queue[0])]]
            && d in r.logged && |r.logged[d]| == |s.logged[d]| + 1 && r.logged[d][|s.logged[d]|].command == s.queue[0]
            && LoggedFor(r, d, |s.dequeued|)
  {
    var middle := Fetched(texts, s, d);
    Fetches(texts, s, d);
    FetchedIs(texts, s, d);
    var r := Acknowledges(texts, middle, d, s.queue[0]);
    assert EntryFor(r, r.logged[d][|s.logged[d]|], |s.dequeued|);
    LeadsOn(texts, s, middle, r);
    steps :| Possible(texts, s, steps) && After(texts, s, steps) == r;
  }

  // Exactly when the base can still come to log the acknowledgement of a queued command: some
  // drone is there that can get it and acknowledge it.
  lemma LoggableExactlyWhen(texts: Texts, s: State, i: nat)
    requires texts.Faithful() && Inv(texts, s) && |s.dequeued| <= i < |s.accepted|
    ensures Loggable(texts, s, i) <==>
              exists d :: d in s.pollers && CanGet(texts, d, s.accepted[i]) && Acknowledgeable(texts, d, s.accepted[i])
  {
    if Loggable(texts, s, i) {
      var steps :| Possible(texts, s, steps) && exists d :: LoggedFor(After(texts, s, steps), d, i);
      var r := After(texts, s, steps);
      RunKeepsInv(texts, s, steps);
      RunExtends(texts, s, steps);
      var d :| LoggedFor(r, d, i);
      LoggedWasSent(texts, s, r, d, i);
    }
    if d :| d in s.pollers && CanGet(texts, d, s.accepted[i]) && Acknowledgeable(texts, d, s.accepted[i]) {
      var before := Reaches(texts, s, d, i);
      var steps := DeliveryCompletes(texts, before, d);
      LeadsOn(texts, s, before, After(texts, before, steps));
    }
  }

  lemma LoggedWasSent(texts: Texts, s: State, r: State, d: nat, i: nat)
    requires Inv(texts, s) && Inv(texts, r) && Extends(s, r) && i < |s.accepted| && LoggedFor(r, d, i)
    ensures d in s.pollers && CanGet(texts, d, s.accepted[i]) && Acknowledgeable(texts, d, s.accepted[i])
  {
    LoggedIsHad(texts, r, d, i);
    CarriedTo(texts, s, r, d, i);
    assert r.accepted[i] == r.dequeued[i];
  }

  lemma LoggedIsHad(texts: Texts, r: State, d: nat, i: nat)
    requires Inv(texts, r) && LoggedFor(r, d, i)
    ensures d in r.received && Has(r.received[d], i)
    ensures i < |r.dequeued| && Acknowledgeable(texts, d, r.dequeued[i])
  {
    var k :| 0 <= k < |r.logged[d]| && EntryFor(r, r.logged[d][k], i);
    assert LogOk(d, r.logged[d], r.conns, r.dequeued);
    assert EntryOk(d, r.logged[d][k], r.conns, r.dequeued);
    var conn := r.conns[r.logged[d][k].conn];
    assert AckOk(texts, d, i, conn.request.text, r.received, r.dequeued);
    assert RequestEncodes(texts, conn);
  }

  // ----- All of this happens -----

  // For every command there is JSON under which one drone gets it and the base logs that it
  // did, and under which another run loses it; and JSON under which it is too large.
  lemma AllHappens(command: Command, long: string)
    returns (fits: Texts, arrived: State, lost: State, tooLarge: Texts, stuck: State)
    requires |long| > Frames.MAX_PAYLOAD
    ensures Initial(OneDrone(0))
    ensures fits.Faithful() && Leads(fits, OneDrone(0), arrived) && Leads(fits, OneDrone(0), lost)
    ensures arrived.received == map[0 := [Delivery(0, command)]] && LoggedFor(arrived, 0, 0)
    ensures lost.accepted == [command] && !Deliverable(fits, lost, 0)
    ensures tooLarge.Faithful() && tooLarge.marshal(command) == Some(long) && Leads(tooLarge, OneDrone(0), stuck)
    ensures stuck.queue == [command] && !Deliverable(tooLarge, stuck, 0)
  {
    fits, tooLarge := JsonExists(command, long);
    arrived := Arrives(fits, command);
    var s, t: State;
    s, lost := CommandLost(fits, 0, command);
    t, stuck := OversizedLost(tooLarge, command);
    assert s == t == OneDrone(0);
  }

  lemma Arrives(texts: Texts, command: Command) returns (r: State)
    requires texts.Faithful() && CanGet(texts, 0, command) && Acknowledgeable(texts, 0, command)
    ensures Leads(texts, OneDrone(0), r)
    ensures r.received == map[0 := [Delivery(0, command)]] && LoggedFor(r, 0, 0)
  {
    var queued := OneDrone(0).(queue := [] + [command], accepted := [] + [command]);
    var none: seq<Delivery> := [];
    assert none + [Delivery(0, command)] == [Delivery(0, command)];
    LeadsStep(texts, OneDrone(0), Enqueue(command));
    var steps := DeliveryCompletes(texts, queued, 0);
    r := After(texts, queued, steps);
    assert r.received == map[0 := none][0 := none + [Delivery(0, command)]];
    LeadsOn(texts, OneDrone(0), queued, r);
  }
}
