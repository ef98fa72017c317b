/** The LoRa driver's receive side: one fixed array, two cursors, compaction in place. */
module LoRaHat {
  import opened Bytes
  import opened Frames
  import opened Options
  import opened Receiver

  // The serial port.  Read follows the reader contract: it fills a stretch of the slice
  // it is offered and says how much, possibly with an error.
  class SerialPort {
    var steps: seq<ReadStep>

    constructor (steps: seq<ReadStep>)
      ensures this.steps == steps
    {
      this.steps := steps;
    }

    method Read(p: array<byte>, from: nat) returns (n: nat, failed: bool)
      requires from <= p.Length
      modifies this, p
      ensures var r := Receiver.Read(old(steps), p.Length - from);
              n == |r.data| && failed == r.failed && steps == r.steps
      ensures p[..] == old(p[..from]) + Receiver.Read(old(steps), p.Length - from).data + old(p[from + n..])
    {
      var r := Receiver.Read(steps, p.Length - from);
      n, failed, steps := |r.data|, r.failed, r.steps;
      ghost var was := p[..];
      forall i | 0 <= i < n {
        p[from + i] := r.data[i];
      }
      assert p[..] == was[..from] + r.data + was[from + n..];
    }
  }

  // The search has passed over the first k bytes.
  ghost predicate Passed(all: seq<byte>, k: nat) {
    k <= |all| && forall j :: 0 <= j < k ==> Impossible(all, j)
  }

  predicate Impossible(all: seq<byte>, j: nat) {
    j + 4 <= |all| && !Plausible(all[j..])
  }

  lemma PassOne(all: seq<byte>, k: nat)
    requires Passed(all, k) && k + 4 <= |all| && !Plausible(all[k..])
    ensures Passed(all, k + 1) && all[k..][1..] == all[k + 1..]
  {
    assert Impossible(all, k);
  }

  lemma {:induction false} PassedMeans(all: seq<byte>, k: nat)
    requires Passed(all, k)
    ensures Frames.NextFrame(all) == Frames.NextFrame(all[k..])
  {
    if k == 0 {
      assert all[0..] == all;
    } else {
      PassedMeans(all, k - 1);
      assert Impossible(all, k - 1);
      assert all[k - 1..][1..] == all[k..];
    }
  }

  // What is found then.
  lemma {:induction false} Decided(all: seq<byte>, k: nat)
    requires Passed(all, k) && (|all| - k >= 4 ==> Plausible(all[k..]))
    ensures Frames.NextFrame(all)
         == (var s := all[k..];
             if |s| < 4 || |s| < 4 + Announced(s) then NeedMore(s)
             else Found(s[..4 + Announced(s)], s[4 + Announced(s)..]))
  {
    PassedMeans(all, k);
  }

  class LoRaHAT {
    const serial: SerialPort
    const receiveBuf: array<byte>
    var receiveStart: nat
    var receiveEnd: nat

    ghost predicate Valid()
      reads this
    {
      receiveBuf.Length == 65540 && receiveStart <= receiveEnd <= 65540
    }

    // The bytes between the cursors.
    ghost function Buffered(): (s: seq<byte>)
      requires Valid()
      reads this, receiveBuf
      ensures |s| <= MAX_FRAME
    {
      receiveBuf[receiveStart..receiveEnd]
    }

    constructor (serial: SerialPort)
      ensures Valid() && Buffered() == []
      ensures this.serial == serial && fresh(receiveBuf)
    {
      this.serial := serial;
      receiveBuf := new byte[MAX_FRAME](_ => 0);
      receiveStart, receiveEnd := 0, 0;
    }

    // One call of the specification, whose runs are Receiver.Calls.
    method Receive() returns (outcome: Outcome)
      requires Valid()
      modifies `receiveStart, `receiveEnd, receiveBuf, serial
      ensures Valid()
      ensures var r := Receiver.Receive(old(Buffered()), old(serial.steps));
              outcome == r.outcome && Buffered() == r.buffered && serial.steps == r.steps
    {
      ghost var was := Buffered();
      var frame := NextFrame();
      if frame.Some? {
        return Frame(frame.value);
      }
      ghost var rest, read := Buffered(), Receiver.Read(serial.steps, MAX_FRAME - |Buffered()|);
      assert Receiver.Receive(was, serial.steps) == Accept(rest, read);
      var n, failed := Fill();
      if failed {
        return Failed;
      }
      if n == 0 {
        return Nothing;
      }
      frame := NextFrame();
      return if frame.Some? then Frame(frame.value) else Nothing;
    }

    // Makes room at the end of the array and reads into it.
    method Fill() returns (n: nat, failed: bool)
      requires Valid()
      modifies `receiveStart, `receiveEnd, receiveBuf, serial
      ensures Valid()
      ensures var read := Receiver.Read(old(serial.steps), MAX_FRAME - |old(Buffered())|);
              && n == |read.data| && failed == read.failed && serial.steps == read.steps
              && Buffered() == old(Buffered()) + read.data
    {
      CompactReceiveBuffer();
      assert Buffered() == receiveBuf[..receiveEnd];
      n, failed := serial.Read(receiveBuf, receiveEnd);
      receiveEnd := receiveEnd + n;
    }

    method NextFrame() returns (frame: Option<seq<byte>>)
      requires Valid()
      modifies `receiveStart, `receiveEnd
      ensures Valid()
      ensures Frames.NextFrame(old(Buffered()))
           == if frame.Some? then Found(frame.value, Buffered()) else NeedMore(Buffered())
    {
      ghost var all, k := Buffered(), 0;
      while receiveEnd - receiveStart >= 4
        invariant Valid() && Passed(all, k) && Buffered() == all[k..]
        decreases receiveEnd - receiveStart
      {
        var payloadLength := PayloadLength();
        if payloadLength == 0 || payloadLength > MAX_PAYLOAD {
          PassOne(all, k);
          SkipByte();
          k := k + 1;
        } else {
          var frameLength := 4 + payloadLength;
          Decided(all, k);
          if receiveEnd - receiveStart < frameLength {
            return None;
          }
          var bytes := TakeFrame(frameLength);
          return Some(bytes);
        }
      }
      Decided(all, k);
      return None;
    }

    method SkipByte()
      requires Valid() && Buffered() != []
      modifies `receiveStart
      ensures Valid() && receiveStart == old(receiveStart) + 1 && Buffered() == old(Buffered())[1..]
    {
      assert receiveBuf[receiveStart + 1..receiveEnd] == Buffered()[1..];
      receiveStart := receiveStart + 1;
    }

    // The length announced in front of the buffered bytes.
    method PayloadLength() returns (length: nat)
      requires Valid() && |Buffered()| >= 4
      ensures length == Announced(Buffered())
    {
      length := Uint32(receiveBuf[receiveStart], receiveBuf[receiveStart + 1],
                       receiveBuf[receiveStart + 2], receiveBuf[receiveStart + 3]);
    }

    // Copies the first frameLength bytes out and moves past them.
    method TakeFrame(frameLength: nat) returns (bytes: seq<byte>)
      requires Valid() && frameLength <= |Buffered()|
      modifies `receiveStart, `receiveEnd
      ensures Valid()
      ensures bytes == old(Buffered())[..frameLength] && Buffered() == old(Buffered())[frameLength..]
    {
      bytes := receiveBuf[receiveStart..receiveStart + frameLength];
      assert bytes == Buffered()[..frameLength];
      assert receiveBuf[receiveStart + frameLength..receiveEnd] == Buffered()[frameLength..];
      receiveStart := receiveStart + frameLength;
      if receiveStart == receiveEnd {
        receiveStart, receiveEnd := 0, 0;
      }
    }

    method CompactReceiveBuffer()
      requires Valid()
      modifies `receiveStart, `receiveEnd, receiveBuf
      ensures Valid() && receiveStart == 0
      ensures Buffered() == old(Buffered())
    {
      if receiveStart == 0 {
        return;
      }
      forall i | 0 <= i < receiveEnd - receiveStart {
        receiveBuf[i] := receiveBuf[receiveStart + i];
      }
      receiveEnd := receiveEnd - receiveStart;
      receiveStart := 0;
    }
  }
}
