/** The base's bounded queue of controller commands, the handler that serves one TCP
    request, and one iteration of a drone's poller. */
module ControllerQueue {
  import opened Bytes
  import opened Codec
  import opened Handlers
  import opened Options
  import Frames

  // A payload stands for its JSON value.
  datatype Command = Command(action: string, payload: string)

  datatype Ack = Ack(action: string, status: string, payload: string, error: string)

  // JSON for messages, and for commands and acknowledgements, either way.  What Go promises is
  // that text reads back and is not empty.
  datatype Texts = Texts(
    json: Json,
    marshal: Command -> Option<string>, unmarshal: string -> Option<Command>,
    marshalAck: Ack -> Option<string>, unmarshalAck: string -> Option<Ack>)
  {
    ghost predicate Faithful() {
      && json.Faithful()
      && (forall c: Command :: marshal(c).Some? ==>
            marshal(c).value != "" && unmarshal(marshal(c).value) == Some(c))
      && (forall a: Ack :: marshalAck(a).Some? ==>
            marshalAck(a).value != "" && unmarshalAck(marshalAck(a).value) == Some(a))
    }
  }

  const CAPACITY := 100

  // Which case of the select in nextControllerCommand goes ahead.
  datatype Wake = Arrived | Cancelled | TimedOut

  // The data of the reply to next_command; a command that does not marshal is dropped.
  function CommandText(texts: Texts, c: Command): string {
    match texts.marshal(c) case Some(text) => text case None => ""
  }

  // The reply that carries it to the drone with that number.
  function CommandReply(texts: Texts, id: int, c: Command): Message {
    Message(id, "controller_cmd", CommandText(texts, c))
  }

  // Whether the handler can write command c to that drone: its text must exist, and the reply
  // with that text must not be too large for a frame.
  predicate Carried(texts: Texts, id: int, c: Command) {
    texts.marshal(c).Some? && Encode(texts.json, CommandReply(texts, id, c)).Ok?
  }

  // Whether that drone can ask for a command at all and be given this one.
  predicate CanGet(texts: Texts, id: int, c: Command) {
    Encode(texts.json, Poll(id)).Ok? && Carried(texts, id, c)
  }

  class Channel {
    var queue: seq<Command>
    ghost var accepted: seq<Command>
    ghost var dequeued: seq<Command>

    ghost predicate Valid()
      reads this
    {
      accepted == dequeued + queue && |queue| <= CAPACITY
    }

    constructor ()
      ensures Valid() && accepted == [] && dequeued == []
    {
      queue := [];
      accepted, dequeued := [], [];
    }

    method Enqueue(c: Command) returns (queued: bool)
      requires Valid()
      modifies this
      ensures Valid() && dequeued == old(dequeued)
      ensures queued <==> |old(queue)| < 100
      ensures accepted == old(accepted) + if queued then [c] else []
    {
      assert accepted + [] == accepted && dequeued + (queue + [c]) == (dequeued + queue) + [c];
      queued := |queue| < CAPACITY;
      if queued {
        queue := queue + [c];
        accepted := accepted + [c];
      }
    }

    // A receive goes ahead only when there is something to receive.
    method Next(texts: Texts, m: Message, wake: Wake) returns (reply: Message)
      requires Valid() && (wake.Arrived? ==> queue != [])
      modifies this
      ensures Valid() && accepted == old(accepted)
      ensures if wake.Arrived? then
                var c := old(queue)[0];
                dequeued == old(dequeued) + [c] && reply == CommandReply(texts, m.id, c)
              else
                dequeued == old(dequeued) && reply == Message(m.id, "controller_cmd", "")
    {
      if !wake.Arrived? {
        return Message(m.id, "controller_cmd", "");
      }
      var c := queue[0];
      assert dequeued + queue == (dequeued + [c]) + queue[1..];
      queue := queue[1..];
      dequeued := dequeued + [c];
      var payload := texts.marshal(c);
      if payload.None? {
        return Message(m.id, "controller_cmd", "");
      }
      return Message(m.id, "controller_cmd", payload.value);
    }
  }

  // The acknowledgement in the data of a request, and the command in the data of a reply.
  function AckIn(texts: Texts, data: string): Option<Ack> {
    if data == "" then None else texts.unmarshalAck(data)
  }

  function CommandIn(texts: Texts, data: string): Option<Command> {
    if data == "" then None else texts.unmarshal(data)
  }

  // What controllerAck logs.
  function AckLogged(texts: Texts, m: Message): Option<Ack> {
    AckIn(texts, m.data)
  }

  function AckReply(texts: Texts, m: Message): Message {
    Message(m.id, m.cmd, if m.data == "" || texts.unmarshalAck(m.data).Some? then "ok" else "invalid")
  }

  // An acknowledgement is logged exactly if there is one and it was understood, which the
  // answer says.
  lemma LoggedExactlyWhen(texts: Texts, m: Message)
    ensures AckReply(texts, m).id == m.id && AckReply(texts, m).cmd == m.cmd
    ensures AckReply(texts, m).data == "ok" || AckReply(texts, m).data == "invalid"
    ensures AckReply(texts, m).data == "invalid" <==> m.data != "" && texts.unmarshalAck(m.data).None?
    ensures AckLogged(texts, m).Some? <==> m.data != "" && AckReply(texts, m).data == "ok"
    ensures AckLogged(texts, m).Some? ==> AckLogged(texts, m) == texts.unmarshalAck(m.data)
  {
    assert |"ok"| == 2 && |"invalid"| == 7;
  }

  // ----- One TCP request -----

  // What the handler answers to m, given what its select does and what the other handlers
  // have to say.
  function Response(texts: Texts, m: Message, head: Option<Command>, given: string): Option<Message> {
    Dispatch(m,
      if m.cmd == "next_command" then (match head case Some(c) => CommandText(texts, c) case None => "")
      else if m.cmd == "controller_ack" then AckReply(texts, m).data
      else given)
  }

  // The bytes of a message on the wire; one that does not encode is not written at all.
  function Written(json: Json, m: Option<Message>): seq<byte> {
    if m.Some? && Encode(json, m.value).Ok? then Encode(json, m.value).value else []
  }

  // The whole life of a connection: at most one command leaves the queue, only for a
  // well-formed next_command, and the bytes written are the framed reply or nothing.
  method TcpHandler(texts: Texts, channel: Channel, conn: Reader, wake: Wake, given: string)
    returns (written: seq<byte>, logged: Option<Ack>)
    requires channel.Valid() && (wake.Arrived? ==> channel.queue != [])
    modifies channel, conn
    ensures channel.Valid() && channel.accepted == old(channel.accepted)
    ensures match Decode(texts.json, old(conn.unread)).result
            case Err(_) => written == [] && logged == None && channel.dequeued == old(channel.dequeued)
            case Ok(m) =>
              var head := if wake.Arrived? then Some(old(channel.queue)[0]) else None;
              var reply := Response(texts, m, head, given);
              && channel.dequeued == old(channel.dequeued)
                   + (if m.cmd == "next_command" && head.Some? then [head.value] else [])
              && logged == (if m.cmd == "controller_ack" then AckLogged(texts, m) else None)
              && written == Written(texts.json, reply)
  {
    written, logged := [], None;
    assert channel.dequeued + [] == channel.dequeued;
    var request := DecodeMessage(texts.json, conn);
    if request.Err? {
      return;
    }
    var m := request.value;
    var response: Option<Message>;
    if m.cmd == "next_command" {
      var reply := channel.Next(texts, m, wake);
      response := Some(reply);
    } else if m.cmd == "controller_ack" {
      logged := AckLogged(texts, m);
      response := Some(AckReply(texts, m));
    } else {
      response := Dispatch(m, given);
    }
    if response.None? {
      return;
    }
    var data := EncodeMessage(texts.json, response.value);
    if data.Err? {
      return;
    }
    written := data.value[..];
  }

  // ----- One iteration of the poller -----

  // A WiFi transport, with the replies it will get; None is any error.
  class WiFi {
    var replies: seq<Option<Message>>
    var sent: seq<Message>

    constructor (replies: seq<Option<Message>>)
      ensures this.replies == replies && sent == []
    {
      this.replies, sent := replies, [];
    }

    method Send(m: Message) returns (reply: Option<Message>)
      modifies this
      ensures sent == old(sent) + [m]
      ensures if old(replies) == [] then reply == None && replies == []
              else reply == old(replies)[0] && replies == old(replies)[1..]
    {
      sent := sent + [m];
      reply := None;
      if replies != [] {
        reply := replies[0];
        replies := replies[1..];
      }
    }
  }

  function Poll(id: int): Message {
    Message(id, "next_command", "")
  }

  function Taken(c: Command): Ack {
    Ack(c.action, "taken", c.payload, "")
  }

  // The command in a reply, if there is one.
  function CommandOf(texts: Texts, reply: Option<Message>): Option<Command> {
    if reply.None? then None else CommandIn(texts, reply.value.data)
  }

  function AckRequest(id: int, text: string): Message {
    Message(id, "controller_ack", text)
  }

  // The acknowledgement that follows.
  function AckFor(texts: Texts, id: int, c: Option<Command>): seq<Message> {
    if c.None? then []
    else match texts.marshalAck(Taken(c.value))
      case None => []
      case Some(data) => [AckRequest(id, data)]
  }

  // Whether that drone can send the acknowledgement of command c.
  predicate Acknowledgeable(texts: Texts, id: int, c: Command) {
    var text := texts.marshalAck(Taken(c));
    text.Some? && Encode(texts.json, AckRequest(id, text.value)).Ok?
  }

  method PollOnce(texts: Texts, wifi: WiFi, id: int, connected: bool) returns (received: Option<Command>)
    modifies wifi
    ensures received == if !connected || old(wifi.replies) == [] then None else CommandOf(texts, old(wifi.replies)[0])
    ensures wifi.sent == if connected then old(wifi.sent) + [Poll(id)] + AckFor(texts, id, received) else old(wifi.sent)
  {
    received := None;
    if !connected {
      return;
    }
    var resp := wifi.Send(Message(id, "next_command", ""));
    assert wifi.sent + [] == wifi.sent;
    if resp.None? {
      return;
    }
    if resp.value.data == "" {
      return;
    }
    received := texts.unmarshal(resp.value.data);
    if received.None? {
      return;
    }
    var ack := Ack(received.value.action, "taken", received.value.payload, "");
    var data := texts.marshalAck(ack);
    if data.None? {
      return;
    }
    var _ := wifi.Send(Message(id, "controller_ack", data.value));
  }

  // One command, end to end: what the base writes for a poll is what the drone takes out
  // of it, and what the drone acknowledges is what the base logs.
  lemma CommandSurvives(texts: Texts, id: int, c: Command, given: string)
    requires texts.Faithful() && texts.marshal(c).Some? && texts.marshalAck(Taken(c)).Some?
    ensures CommandOf(texts, Response(texts, Poll(id), Some(c), given)) == Some(c)
    ensures var acks := AckFor(texts, id, Some(c));
            && |acks| == 1 && AckLogged(texts, acks[0]) == Some(Ack(c.action, "taken", c.payload, ""))
            && Response(texts, acks[0], None, given) == Some(Message(id, "controller_ack", "ok"))
  {
    Distinct();
  }

  // A poll that finds nothing, or a command that cannot be written down, gives the drone
  // nothing to take.
  lemma NothingToTake(texts: Texts, id: int, head: Option<Command>, given: string)
    requires head.Some? ==> texts.marshal(head.value).None?
    ensures CommandOf(texts, Response(texts, Poll(id), head, given)) == None
  {
    Distinct();
  }

  // What a drone takes out of the bytes that come back, and what the base logs for the bytes
  // of a request.
  function CommandRead(texts: Texts, wire: seq<byte>): Option<Command> {
    match Decode(texts.json, wire).result
    case Ok(m) => CommandOf(texts, Some(m))
    case Err(_) => None
  }

  function AckRead(texts: Texts, wire: seq<byte>): Option<Ack> {
    match Decode(texts.json, wire).result
    case Ok(m) => if m.cmd == "controller_ack" then AckLogged(texts, m) else None
    case Err(_) => None
  }

  // What is written is read back if and only if it could be encoded; otherwise the reader
  // finds the connection closed.
  lemma ReadExactlyWhenWritten(json: Json, m: Message)
    requires json.Faithful()
    ensures Decode(json, Written(json, Some(m))).result
         == if Encode(json, m).Ok? then Ok(m) else Err(ReadLength)
  {
    if Encode(json, m).Ok? {
      DecodeEncode(json, m, []);
      assert Written(json, Some(m)) + [] == Written(json, Some(m));
    }
  }

  // Byte by byte: exactly when the answer to a poll brings the command.
  lemma CommandCrossesExactlyWhen(texts: Texts, id: int, c: Command, given: string)
    requires texts.Faithful()
    ensures CommandRead(texts, Written(texts.json, Response(texts, Poll(id), Some(c), given)))
         == if Carried(texts, id, c) then Some(c) else None
  {
    Distinct();
    ReadExactlyWhenWritten(texts.json, CommandReply(texts, id, c));
  }

  // And exactly when the acknowledgement brings the base to log it.
  lemma AckCrossesExactlyWhen(texts: Texts, id: int, c: Command)
    requires texts.Faithful() && texts.marshalAck(Taken(c)).Some?
    ensures AckRead(texts, Written(texts.json, Some(AckRequest(id, texts.marshalAck(Taken(c)).value))))
         == if Acknowledgeable(texts, id, c) then Some(Taken(c)) else None
  {
    ReadExactlyWhenWritten(texts.json, AckRequest(id, texts.marshalAck(Taken(c)).value));
  }

  // ----- What is asked of JSON can be had -----

  // A text for a message that is as long as its data, and begins with n.
  function Tagged(n: byte, m: Message): (s: seq<byte>)
    ensures |s| == 1 + |m.data| && s[0] == n
  {
    [n] + seq(|m.data|, _ => 0)
  }

  // JSON that knows four messages: a poll of drone 0, the reply that carries `text`, and the
  // acknowledgement `ackText` with its reply.
  function SampleJson(text: string, ackText: string): Json {
    var poll, reply, ack := Poll(0), Message(0, "controller_cmd", text), AckRequest(0, ackText);
    var done := Message(0, "controller_ack", "ok");
    Json(
      m => if m == poll then Some(Tagged(1, poll)) else if m == reply then Some(Tagged(2, reply))
           else if m == ack then Some(Tagged(3, ack)) else if m == done then Some(Tagged(4, done)) else None,
      s => if s == Tagged(1, poll) then Some(poll) else if s == Tagged(2, reply) then Some(reply)
           else if s == Tagged(3, ack) then Some(ack) else if s == Tagged(4, done) then Some(done) else None)
  }

  // The same for one command with these texts.
  function SampleTexts(command: Command, text: string, ackText: string): Texts {
    Texts(
      SampleJson(text, ackText),
      c => if c == command then Some(text) else None, t => if t == text then Some(command) else None,
      a => if a == Taken(command) then Some(ackText) else None,
      t => if t == ackText then Some(Taken(command)) else None)
  }

  lemma SampleJsonIsFaithful(text: string, ackText: string)
    ensures SampleJson(text, ackText).Faithful() && SampleJson(text, ackText).NeverShorter()
  {
  }

  lemma SampleIsFaithful(command: Command, text: string, ackText: string)
    requires text != "" && ackText != ""
    ensures var texts := SampleTexts(command, text, ackText);
            texts.Faithful() && texts.json.NeverShorter() && texts.marshal(command) == Some(text)
  {
    SampleJsonIsFaithful(text, ackText);
  }

  // For every command there is JSON under which a drone can get it and acknowledge it, and
  // JSON under which it marshals but is too large.
  lemma JsonExists(command: Command, long: string) returns (fits: Texts, tooLarge: Texts)
    requires |long| > Frames.MAX_PAYLOAD
    ensures fits.Faithful() && fits.json.NeverShorter()
    ensures CanGet(fits, 0, command) && Acknowledgeable(fits, 0, command)
    ensures tooLarge.Faithful() && tooLarge.json.NeverShorter() && Encode(tooLarge.json, Poll(0)).Ok?
    ensures tooLarge.marshal(command) == Some(long)
    ensures Encode(tooLarge.json, CommandReply(tooLarge, 0, command)) == Err(TooLarge)
  {
    fits, tooLarge := SampleTexts(command, "c", "a"), SampleTexts(command, long, "a");
    SampleIsFaithful(command, "c", "a");
    SampleIsFaithful(command, long, "a");
    Distinct();
  }
}
