/** The base's dispatch table. */
module Handlers {
  import opened Codec
  import opened Options

  // What the named handler answers, or nothing when there is no such handler.  The data of
  // device_state, next_command and controller_ack depends on more than the request, so it
  // is given.
  function Dispatch(m: Message, given: string): Option<Message> {
    if m.cmd == "ping" then Some(Message(m.id, m.cmd, "pong"))
    else if m.cmd == "debug_log" then Some(Message(m.id, m.cmd, "ok"))
    else if m.cmd == "device_state" || m.cmd == "controller_ack" then Some(Message(m.id, m.cmd, given))
    else if m.cmd == "next_command" then Some(Message(m.id, "controller_cmd", given))
    else None
  }

  function Ping(id: int): Message {
    Message(id, "ping", "")
  }

  function Pong(id: int): Message {
    Message(id, "ping", "pong")
  }

  function Confirmation(id: int): Message {
    Message(id, "debug_log", "radio ping pong confirmed")
  }

  function Ack(id: int): Message {
    Message(id, "debug_log", "ok")
  }

  // Which commands there are, and that the answer goes to whoever asked.
  lemma DispatchExactlyWhen(m: Message, given: string)
    ensures Dispatch(m, given).Some?
            <==> m.cmd in {"ping", "device_state", "debug_log", "next_command", "controller_ack"}
    ensures Dispatch(m, given).Some? ==>
              var reply := Dispatch(m, given).value;
              && reply.id == m.id && reply.cmd == (if m.cmd == "next_command" then "controller_cmd" else m.cmd)
              && (m.cmd == "ping" ==> reply.data == "pong") && (m.cmd == "debug_log" ==> reply.data == "ok")
  {
    Distinct();
  }

  // Only a ping makes a pong, only a confirmation's command makes an acknowledgement, and
  // only for the drone that sent it.
  lemma DispatchCauses(m: Message, given: string, id: int)
    ensures Dispatch(m, given) == Some(Pong(id)) <==> m.cmd == "ping" && m.id == id
    ensures Dispatch(m, given) == Some(Ack(id)) <==> m.cmd == "debug_log" && m.id == id
  {
    Distinct();
  }

  lemma Distinct()
    ensures "ping" != "debug_log" && "controller_cmd" != "ping" && "controller_cmd" != "debug_log"
    ensures "device_state" != "ping" && "controller_ack" != "ping" && "next_command" != "ping"
    ensures "device_state" != "debug_log" && "controller_ack" != "debug_log" && "next_command" != "debug_log"
    ensures "pong" != "" && "ok" != "radio ping pong confirmed"
  {
    assert "device_state"[0] == 'd' && "debug_log"[2] == 'b' && "device_state"[2] == 'v';
    assert |"ping"| == 4 && |"debug_log"| == 9 && |"controller_cmd"| == 14 && |"device_state"| == 12
        && |"controller_ack"| == 14 && |"next_command"| == 12 && |"ok"| == 2 && |"radio ping pong confirmed"| == 25;
  }
}
