/** The length-prefixed message codec, and its agreement with the radio's frame scanner.

    JSON is a pair of functions given from outside: `marshal` may refuse a message and
    `unmarshal` may refuse a payload. */
module Codec {
  import opened Bytes
  import opened Frames
  import opened Options
  import opened Seqs

  datatype Message = Message(id: int, cmd: string, data: string)

  datatype Json = Json(marshal: Message -> Option<seq<byte>>, unmarshal: seq<byte> -> Option<Message>) {
    // What encoding/json promises for these messages: text is never empty and reads back.
    ghost predicate Faithful() {
      forall m: Message :: marshal(m).Some? ==>
        marshal(m).value != [] && unmarshal(marshal(m).value) == Some(m)
    }

    // The text of a message is no shorter than the data in it.
    ghost predicate NeverShorter() {
      forall m: Message :: marshal(m).Some? ==> |marshal(m).value| >= |m.data|
    }
  }

  datatype CodecError = EncodeFailed | TooLarge | ReadLength | InvalidLength | ReadPayload | DecodeFailed

  datatype Result<+T> = Ok(value: T) | Err(error: CodecError)

  // A payload with its length in front.
  function Framed(payload: seq<byte>): (s: seq<byte>)
    requires |payload| <= MAX_PAYLOAD
    ensures |s| == 4 + |payload|
  {
    PutUint32(|payload|) + payload
  }

  function Encode(json: Json, m: Message): Result<seq<byte>> {
    match json.marshal(m)
    case None => Err(EncodeFailed)
    case Some(payload) => if |payload| > MAX_PAYLOAD then Err(TooLarge) else Ok(Framed(payload))
  }

  datatype Decoded = Decoded(result: Result<Message>, rest: seq<byte>)

  // Reads one message off the front of s; rest is what the reader is left with.
  function Decode(json: Json, s: seq<byte>): Decoded {
    if |s| < 4 then Decoded(Err(ReadLength), [])
    else if !Plausible(s) then Decoded(Err(InvalidLength), s[4..])
    else
      var n := 4 + Announced(s);
      if |s| < n then Decoded(Err(ReadPayload), [])
      else match json.unmarshal(s[4..n])
        case None => Decoded(Err(DecodeFailed), s[n..])
        case Some(m) => Decoded(Ok(m), s[n..])
  }

  lemma FramedHeader(payload: seq<byte>, more: seq<byte>)
    requires |payload| <= MAX_PAYLOAD
    ensures var s := Framed(payload) + more; Announced(s) == |payload|
  {
    Uint32OfPut(|payload|);
  }

  // An encoded message, whatever follows it, decodes to itself and leaves what follows.
  lemma DecodeEncode(json: Json, m: Message, more: seq<byte>)
    requires json.Faithful() && Encode(json, m).Ok?
    ensures Decode(json, Encode(json, m).value + more) == Decoded(Ok(m), more)
  {
    var payload := json.marshal(m).value;
    FramedHeader(payload, more);
    var s := Framed(payload) + more;
    assert s[4..4 + |payload|] == payload;
    assert s[4 + |payload|..] == more;
  }

  // Exactly how each message is encoded, or refused.
  lemma EncodeExactlyWhen(json: Json, m: Message)
    ensures Encode(json, m) == Err(EncodeFailed) <==> json.marshal(m).None?
    ensures Encode(json, m) == Err(TooLarge) <==> json.marshal(m).Some? && |json.marshal(m).value| > 65536
    ensures Encode(json, m).Ok? ==> json.marshal(m) == Some(Encode(json, m).value[4..])
  {
    if Encode(json, m).Ok? {
      assert Framed(json.marshal(m).value)[4..] == json.marshal(m).value;
    }
  }

  // Exactly how the bytes behind a header that announces n are decoded: a length that is not
  // from 1 to 65536 is refused before anything else is read, then a payload that is not all
  // there, then one that is no message; what lies behind the payload is left.
  lemma DecodeExactlyWhen(json: Json, n: nat, more: seq<byte>)
    requires n < 0x1_0000_0000
    ensures var d := Decode(json, PutUint32(n) + more);
            && (d.result == Err(InvalidLength) <==> n == 0 || n > 65536)
            && (d.result == Err(InvalidLength) ==> d.rest == more)
            && (d.result == Err(ReadPayload) <==> 1 <= n <= 65536 && |more| < n)
            && (d.result == Err(ReadPayload) ==> d.rest == [])
            && (1 <= n <= 65536 && n <= |more| ==>
                  && d.rest == more[n..]
                  && d.result == match json.unmarshal(more[..n]) case Some(m) => Ok(m) case None => Err(DecodeFailed))
  {
    Uint32OfPut(n);
    var s := PutUint32(n) + more;
    assert s[4..] == more;
    if n <= |more| {
      assert s[4..4 + n] == more[..n] && s[4 + n..] == more[n..];
    }
  }

  // Without a whole header there is nothing to decode.
  lemma ShortExactlyWhen(json: Json, s: seq<byte>)
    ensures Decode(json, s).result == Err(ReadLength) <==> |s| < 4
    ensures |s| < 4 ==> Decode(json, s).rest == []
  {
  }

  ghost predicate Payloads(payloads: seq<seq<byte>>) {
    forall p :: p in payloads ==> 0 < |p| <= 65536
  }

  // The frames of the payloads, in order.
  function FramedAll(payloads: seq<seq<byte>>): (frames: seq<seq<byte>>)
    requires Payloads(payloads)
    ensures |frames| == |payloads| && forall i :: 0 <= i < |frames| ==> frames[i] == Framed(payloads[i])
  {
    if payloads == [] then [] else [Framed(payloads[0])] + FramedAll(payloads[1..])
  }

  lemma {:induction false} ScanFramed(payload: seq<byte>, more: seq<byte>)
    requires 0 < |payload| <= MAX_PAYLOAD
    ensures IsFrame(Framed(payload))
    ensures NextFrame(Framed(payload) + more) == Found(Framed(payload), more)
  {
    FramedHeader(payload, more);
    FramedHeader(payload, []);
    assert Framed(payload) + [] == Framed(payload);
    var s := Framed(payload) + more;
    assert s[..4 + |payload|] == Framed(payload);
    assert s[4 + |payload|..] == more;
  }

  // The scanner cuts a stream of encoded payloads exactly where the encoder joined them,
  // and keeps nothing back.
  lemma {:induction false} ScanInvertsFraming(payloads: seq<seq<byte>>)
    requires Payloads(payloads)
    ensures Scan(Join(FramedAll(payloads))) == Scanned(FramedAll(payloads), [])
  {
    if payloads != [] {
      ScanFramed(payloads[0], Join(FramedAll(payloads[1..])));
      ScanInvertsFraming(payloads[1..]);
      assert FramedAll(payloads)[1..] == FramedAll(payloads[1..]);
    }
  }

  // Every frame the scanner delivers is one whole message for the decoder: it never fails
  // on the length, it reads all of the payload, and no byte is left over.
  lemma {:induction false} FramesSuitDecoder(json: Json, s: seq<byte>)
    requires NextFrame(s).Found?
    ensures var frame := NextFrame(s).frame;
            && Decode(json, frame).rest == []
            && (Decode(json, frame).result.Err? ==> Decode(json, frame).result.error == DecodeFailed)
  {
    FoundIsFrame(s);
  }

  ghost predicate Encodable(json: Json, messages: seq<Message>) {
    forall m :: m in messages ==> Encode(json, m).Ok?
  }

  function EncodeAll(json: Json, messages: seq<Message>): (frames: seq<seq<byte>>)
    requires Encodable(json, messages)
  {
    if messages == [] then [] else [Encode(json, messages[0]).value] + EncodeAll(json, messages[1..])
  }

  function DecodeAll(json: Json, frames: seq<seq<byte>>): seq<Result<Message>> {
    if frames == [] then [] else [Decode(json, frames[0]).result] + DecodeAll(json, frames[1..])
  }

  function Received(messages: seq<Message>): seq<Result<Message>> {
    seq(|messages|, i requires 0 <= i < |messages| => Ok(messages[i]))
  }

  // End to end: encode, send as one stream of bytes, scan, decode.
  lemma {:induction false} MessagesSurvive(json: Json, messages: seq<Message>)
    requires json.Faithful() && Encodable(json, messages)
    ensures Scan(Join(EncodeAll(json, messages))) == Scanned(EncodeAll(json, messages), [])
    ensures DecodeAll(json, EncodeAll(json, messages)) == Received(messages)
  {
    if messages != [] {
      var m := messages[0];
      var frame := Encode(json, m).value;
      MessagesSurvive(json, messages[1..]);
      DecodeEncode(json, m, []);
      assert frame + [] == frame;
      ScanFramed(json.marshal(m).value, Join(EncodeAll(json, messages[1..])));
      assert EncodeAll(json, messages)[1..] == EncodeAll(json, messages[1..]);
      assert Received(messages) == [Ok(m)] + Received(messages[1..]);
    }
  }

  // ----- The code -----

  // Allocates the frame and fills it in place.
  method EncodeMessage(json: Json, m: Message) returns (r: Result<array<byte>>)
    ensures match Encode(json, m)
            case Ok(bytes) => r.Ok? && fresh(r.value) && r.value[..] == bytes
            case Err(e) => r == Err(e)
  {
    var payload := json.marshal(m);
    if payload.None? {
      return Err(EncodeFailed);
    }
    if |payload.value| > MAX_PAYLOAD {
      return Err(TooLarge);
    }
    var buf := new byte[4 + |payload.value|];
    var header := PutUint32(|payload.value|);
    forall i | 0 <= i < 4 {
      buf[i] := header[i];
    }
    forall i | 0 <= i < |payload.value| {
      buf[4 + i] := payload.value[i];
    }
    assert buf[..] == Framed(payload.value);
    return Ok(buf);
  }

  // A reader over the bytes that have arrived; nothing comes after them.
  class Reader {
    var unread: seq<byte>

    constructor (data: seq<byte>)
      ensures unread == data
    {
      unread := data;
    }

    // All n bytes, or none and everything there was is consumed.
    method ReadFull(n: nat) returns (data: Option<seq<byte>>)
      modifies this
      ensures if n <= |old(unread)| then data == Some(old(unread)[..n]) && unread == old(unread)[n..]
              else data == None && unread == []
    {
      if n <= |unread| {
        data, unread := Some(unread[..n]), unread[n..];
      } else {
        data, unread := None, [];
      }
    }
  }

  method DecodeMessage(json: Json, r: Reader) returns (result: Result<Message>)
    modifies r
    ensures Decoded(result, r.unread) == Decode(json, old(r.unread))
  {
    ghost var s := r.unread;
    var header := r.ReadFull(4);
    if header.None? {
      return Err(ReadLength);
    }
    var length := Uint32(header.value[0], header.value[1], header.value[2], header.value[3]);
    if length == 0 || length > MAX_PAYLOAD {
      return Err(InvalidLength);
    }
    var payload := r.ReadFull(length);
    if payload.None? {
      return Err(ReadPayload);
    }
    assert payload.value == s[4..4 + length] && r.unread == s[4 + length..];
    var m := json.unmarshal(payload.value);
    return if m.None? then Err(DecodeFailed) else Ok(m.value);
  }
}
